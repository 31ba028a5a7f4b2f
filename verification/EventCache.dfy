/** A linked chunk with everything that observes it: its store, its order tracker
    and any number of vectors, each reading the updates at its own pace, while
    chunks are loaded from and dropped to the store. What every run keeps. */
module EventCache {
  import opened LinkedChunkModel
  import opened Wrappers
  import opened LinkedChunkOps
  import opened LinkedChunkTruth
  import opened AsVector
  import opened Tables
  import opened Relational
  import opened RelationalTruth
  import opened RelationalItems
  import opened RelationalIsolation
  import opened RelationalLoad
  import opened LazyLoader
  import opened ChunkMetadata
  import Shape = LinkedChunkShape
  import Means = LinkedChunkContents
  import Readers = AsVectorReaders
  import VD = VectorDiffs

  /** A reader of the updates: what it knows, the vector its diffs have been applied
      to, and the updates it has not taken yet. Nobody looks at the vector of the order
      tracker; there it is the one its diffs would give. */
  datatype Reader = Reader(pairs: seq<Pair>, view: seq<Event>, queue: seq<Update>)

  /** `pre` are the chunks that are in the store but not in memory. */
  datatype Cache = Cache(name: string, cap: nat, lc: State, pre: seq<Chunk>, store: Store, toStore: seq<Update>,
                         order: Reader, vectors: map<nat, Reader>)

  datatype Action =
    | Operate(op: Op)
    | Reset
    | Propagate
    | Observe(token: nat)
    | Take(token: nat)
    | FlushOrder
    | LoadPrevious(row: Row<nat, Links>)
    | Shrink(last: Option<Row<nat, Links>>, largest: nat, metas: seq<Meta>)
    | Foreign(other: string, update: Update)

  function Enqueue(r: Reader, us: seq<Update>): Reader {
    r.(queue := r.queue + us)
  }

  function EnqueueAll(rs: map<nat, Reader>, us: seq<Update>): map<nat, Reader> {
    map t | t in rs :: Enqueue(rs[t], us)
  }

  /** `clear_pending`, then new updates. */
  function Restart(r: Reader, us: seq<Update>): Reader {
    r.(queue := us)
  }

  function RestartAll(rs: map<nat, Reader>, us: seq<Update>): map<nat, Reader> {
    map t | t in rs :: Restart(rs[t], us)
  }

  /** Take the pending updates, map them and apply the diffs; `None` on a panic. */
  function Taken(r: Reader): Option<Reader> {
    match Map(Mapper(r.pairs, false, false), r.queue)
    case None => None
    case Some(mapped) => match VD.ApplyDiffs(r.view, mapped.diffs)
      case None => None
      case Some(view) => Some(Reader(mapped.mapper.pairs, view, []))
  }

  /** The tracker is told the lengths of all chunks. */
  function PairsOf(metas: seq<Meta>): seq<Pair> {
    seq(|metas|, i requires 0 <= i < |metas| => Pair(metas[i].id, metas[i].items))
  }

  function LoadLast(st: Store, last: Option<Row<nat, Links>>): Loaded<Option<RawChunk>> {
    match last
    case None => Ok(None)
    case Some(row) => (match LoadRaw(st, row) case Ok(raw) => Ok(Some(raw)) case Malformed => Malformed)
  }

  function Full(c: Cache): seq<Chunk> {
    c.pre + c.lc.chunks
  }

  predicate Ready(c: Cache, a: Action) {
    && 0 < c.cap
    && (a.Take? ==> a.token in c.vectors)
    && (a.LoadPrevious? ==> c.lc.chunks != [])
  }

  /** One action; `None` if any part of it panics or reports an error. */
  function Do(c: Cache, a: Action): Option<Cache>
    requires Ready(c, a)
  {
    match a
    case Operate(op) =>
      var o := Step(c.cap, c.lc, op);
      Some(c.(lc := o.state, toStore := c.toStore + o.updates, order := Enqueue(c.order, o.updates),
              vectors := EnqueueAll(c.vectors, o.updates)))
    case Reset =>
      Some(c.(lc := Fresh, pre := [], toStore := [Clear], order := Restart(c.order, [Clear]),
              vectors := RestartAll(c.vectors, [Clear])))
    case Propagate =>
      (match ApplyUpdates(c.store, c.name, c.toStore)
       case Applied(store) => Some(c.(store := store, toStore := []))
       case _ => None)
    case Observe(token) =>
      var us, lc := InitUpdates(c.lc), Initialized(c.lc);
      Some(c.(lc := lc, toStore := c.toStore + us, order := Enqueue(c.order, us),
              vectors := EnqueueAll(c.vectors, us)[token := Reader(Lengths(lc.chunks), Flat(lc.chunks), [])]))
    case Take(token) =>
      (match Taken(c.vectors[token])
       case None => None
       case Some(r) => Some(c.(vectors := c.vectors[token := r])))
    case FlushOrder =>
      (match Taken(c.order)
       case None => None
       case Some(r) => Some(c.(order := r)))
    case LoadPrevious(row) =>
      (match (Taken(c.order), LoadRaw(c.store, row))
       case (Some(order), Ok(raw)) =>
         (match InsertNewFirstChunk(c.cap, c.lc, raw)
          case Refused(_) => None
          case Built(lc) =>
            var us := FirstChunkUpdates(raw, Some(c.lc.chunks[0].id));
            Some(c.(lc := lc, pre := if c.pre == [] then [] else c.pre[..|c.pre| - 1], toStore := [], order := order,
                    vectors := EnqueueAll(c.vectors, us))))
       case _ => None)
    case Shrink(last, largest, metas) =>
      (match (Taken(c.order), LoadLast(c.store, last))
       case (Some(_), Ok(raw)) =>
         (match FromLastChunk(c.cap, raw, largest)
          case Refused(_) => None
          case Built(None) => Some(Emptied(c))
          case Built(Some(lc)) =>
            var full := Full(c);
            Some(c.(lc := lc, pre := if full == [] then [] else full[..|full| - 1], toStore := [],
                    order := Reader(PairsOf(metas), Flat(full), []),
                    vectors := RestartAll(c.vectors, [Clear] + FirstChunkUpdates(raw.value, None)))))
       case _ => None)
    case Foreign(other, update) =>
      (match ApplyUpdate(c.store, other, update)
       case Panicked => None
       case o => Some(c.(store := o.store)))
  }

  /** Nothing was stored: the linked chunk is cleared, and the new tracker, looking for
      chunks, makes the first one, which the store has yet to learn. */
  function Emptied(c: Cache): Cache {
    var us, lc := InitUpdates(Fresh), Initialized(Fresh);
    c.(lc := lc, pre := [], toStore := us, order := Reader(Lengths(lc.chunks), Flat(lc.chunks), []),
       vectors := RestartAll(c.vectors, [Clear] + us))
  }

  ghost predicate Goes(c: Cache, a: Action, c': Cache) {
    Ready(c, a) && Do(c, a) == Some(c')
  }

  predicate IsLastRow(st: Store, name: string, last: Option<Row<nat, Links>>) {
    match last
    case None => forall r | r in st.chunks :: r.lc != name
    case Some(row) => row in st.chunks && row.lc == name && row.value.next.None?
  }

  /** What `LoadLinkedChunkMetadata` gives. */
  predicate IsMetadata(st: Store, name: string, metas: seq<Meta>) {
    var ms := LoadMetas(st, name, st.chunks);
    ms.Ok? && if ms.value == [] then metas == [] else IsOrderOf(metas, ms.value)
  }

  /** An update of another linked chunk in the store brings no other version of an event
      of this one; and if it is a replacement, it does not hit this one's row. */
  predicate IsPeaceful(st: Store, name: string, u: Update) {
    match u
    case PushItems(_, items) => forall e | e in items :: AgreesWithStored(st, name, e)
    case ReplaceItem(at, item) =>
      && AgreesWithStored(st, name, item)
      && var k := FindAny(st.rows, at);
         k < |st.rows| && st.rows[k].lc == name ==> st.rows[k].value == ItemCell(item.id)
    case _ => true
  }

  /** What the surroundings guarantee: events are pushed once, the store is brought
      up to date before chunks are loaded or dropped, those chunks are the ones the
      store says come before the first, or last, and other linked chunks in the store
      keep the peace. */
  predicate Allowed(c: Cache, a: Action) {
    match a
    case Operate(op) => KeepsDistinct(Full(c), op)
    case Reset => true
    case Propagate => NoForeignGaps(c.store, c.name, c.toStore)
    case Observe(token) => token !in c.vectors
    case Take(token) => token in c.vectors
    case FlushOrder => true
    case LoadPrevious(row) =>
      && c.toStore == [] && c.lc.chunks != []
      && row in c.store.chunks && row.lc == c.name && row.value.next == Some(c.lc.chunks[0].id)
    case Shrink(last, largest, metas) =>
      && c.toStore == []
      && IsLastRow(c.store, c.name, last) && IsMetadata(c.store, c.name, metas)
      && forall r | r in c.store.chunks && r.lc == c.name :: r.key <= largest
    case Foreign(other, update) =>
      && other != c.name && IsPeaceful(c.store, c.name, update)
      && !ApplyUpdate(c.store, other, update).Panicked?
  }

  // --- The invariant -----------------------------------------------------------------

  /** Once the reader has taken its queue, it knows `cs` and shows its items. */
  predicate InSync(r: Reader, cs: seq<Chunk>) {
    Shows(Mapper(r.pairs, false, false), r.view, r.queue, Idle(cs), Flat(cs))
  }

  ghost predicate StoreInSync(st: Store, name: string, us: seq<Update>, cs: seq<Chunk>) {
    exists stored: seq<Chunk> :: Holds(st, name, stored) && Leads(stored, us, cs, true)
  }

  ghost predicate Inv(c: Cache) {
    && 0 < c.cap
    && Linked(c.pre, c.lc, c.cap) && WithinCapacity(c.pre, c.cap)
    && DistinctEvents(Flat(Full(c)))
    && StoreInSync(c.store, c.name, c.toStore, Full(c))
    && InSync(c.order, Full(c))
    && forall t | t in c.vectors :: InSync(c.vectors[t], c.lc.chunks)
  }

  /** A reader that takes its updates never panics, and then shows exactly the items. */
  lemma TakenIsInSync(r: Reader, cs: seq<Chunk>)
    requires InSync(r, cs)
    ensures Taken(r) == Some(Reader(Lengths(cs), Flat(cs), []))
  {
    hide Map, Flat, Lengths;
  }

  lemma Fulfilled(cs: seq<Chunk>)
    ensures InSync(Reader(Lengths(cs), Flat(cs), []), cs)
  {
    ShowsNothing(Idle(cs), Flat(cs));
  }

  lemma EnqueuedInSync(r: Reader, cs: seq<Chunk>, us: seq<Update>, cs': seq<Chunk>)
    requires InSync(r, cs) && Shows(Idle(cs), Flat(cs), us, Idle(cs'), Flat(cs'))
    ensures InSync(Enqueue(r, us), cs')
  {
    hide Shows;
    ShowsConcat(Mapper(r.pairs, false, false), r.view, r.queue, Idle(cs), Flat(cs), us, Idle(cs'), Flat(cs'));
  }

  // --- Events stay distinct ------------------------------------------------------------

  lemma InsertDistinct(x: seq<Event>, items: seq<Event>, y: seq<Event>)
    requires DistinctEvents(x + y) && DistinctEvents(items) && DisjointEvents(x + y, items)
    ensures DistinctEvents(x + items + y)
  {
    DistinctConcat(x, y);
    DistinctConcat(x, items);
    DistinctConcat(x + items, y);
  }

  lemma RemoveDistinct(x: seq<Event>, items: seq<Event>, y: seq<Event>)
    requires DistinctEvents(x + items + y)
    ensures DistinctEvents(x + y)
  {
    DistinctConcat(x + items, y);
    DistinctConcat(x, items);
    DistinctConcat(x, y);
  }

  /** The items of the chunk that an update edits. */
  function Edited(cur: seq<Event>, u: Update): seq<Event>
    requires u.PushItems? || u.RemoveItem? || u.DetachLastItems? || u.ReplaceItem?
    requires !u.PushItems? ==> u.at.index <= |cur|
    requires u.RemoveItem? || u.ReplaceItem? ==> u.at.index < |cur|
  {
    match u
    case PushItems(_, items) => cur + items
    case RemoveItem(at) => cur[..at.index] + cur[at.index + 1..]
    case DetachLastItems(at) => cur[..at.index]
    case ReplaceItem(at, item) => cur[at.index := item]
  }

  lemma EditedDistinct(x: seq<Event>, cur: seq<Event>, y: seq<Event>, u: Update)
    requires u.PushItems? || u.RemoveItem? || u.DetachLastItems? || u.ReplaceItem?
    requires !u.PushItems? ==> u.at.index <= |cur|
    requires u.RemoveItem? || u.ReplaceItem? ==> u.at.index < |cur|
    requires DistinctEvents(x + cur + y)
    requires u.PushItems? ==> DistinctEvents(u.items) && DisjointEvents(x + cur + y, u.items)
    requires u.ReplaceItem? ==> cur[u.at.index].id == u.item.id
    ensures DistinctEvents(x + Edited(cur, u) + y)
  {
    hide DistinctEvents, DisjointEvents;
    var items := Edited(cur, u);
    match u
    case PushItems(_, new_) =>
      InsertDistinct(x + cur, new_, y);
      assert x + items == x + cur + new_;
    case RemoveItem(at) => CutDistinct(x, cur, y, at.index, at.index + 1);
    case DetachLastItems(at) =>
      CutDistinct(x, cur, y, at.index, |cur|);
      assert cur[..at.index] + cur[|cur|..] == items;
    case ReplaceItem(at, e) =>
      SameIdsDistinct(x + cur + y, x + items + y);
  }

  lemma CutDistinct(x: seq<Event>, cur: seq<Event>, y: seq<Event>, i: nat, j: nat)
    requires i <= j <= |cur| && DistinctEvents(x + cur + y)
    ensures DistinctEvents(x + (cur[..i] + cur[j..]) + y)
  {
    hide DistinctEvents;
    var a, b, z := x + cur[..i], cur[i..j], cur[j..] + y;
    assert cur == cur[..i] + b + cur[j..];
    assert x + cur + y == a + b + z;
    RemoveDistinct(a, b, z);
    assert x + (cur[..i] + cur[j..]) + y == a + z;
  }

  lemma SameIdsDistinct(a: seq<Event>, b: seq<Event>)
    requires DistinctEvents(a) && |a| == |b| && forall j | 0 <= j < |a| :: b[j].id == a[j].id
    ensures DistinctEvents(b)
  {
  }

  lemma EditDistinct(cs: seq<Chunk>, u: Update)
    requires u.PushItems? || u.RemoveItem? || u.DetachLastItems? || u.ReplaceItem?
    requires DistinctEvents(Flat(cs)) && KeepsEventsDistinct(cs, u) && Apply(cs, u).Some?
    ensures DistinctEvents(Flat(Apply(cs, u).value))
  {
    hide Flat, DistinctEvents, DisjointEvents;
    var k := IndexOf(cs, u.at.chunk);
    var cur := cs[k].content.items;
    var c := WithItems(cs[k], Edited(cur, u));
    FlatSplit(cs, k);
    EditedDistinct(Flat(cs[..k]), cur, Flat(cs[k + 1..]), u);
    FlatAround(cs[..k], [c], cs[k + 1..]);
    FlatOne(c);
  }

  lemma UpdateDistinct(cs: seq<Chunk>, u: Update)
    requires DistinctEvents(Flat(cs)) && KeepsEventsDistinct(cs, u) && Apply(cs, u).Some?
    ensures DistinctEvents(Flat(Apply(cs, u).value))
  {
    hide Flat, DistinctEvents, DisjointEvents;
    match u {
      case NewItemsChunk(previous, new_, next) => NewDistinct(cs, previous, Chunk(new_, Items([])), next);
      case NewGapChunk(previous, new_, next, gap) => NewDistinct(cs, previous, Chunk(new_, Gap(gap)), next);
      case RemoveChunk(id) =>
        var k := IndexOf(cs, id);
        SpliceSame(cs, k);
        assert cs[..k] + [] + cs[k + 1..] == cs[..k] + cs[k + 1..];
        FlatNew(cs[..k], cs[k], cs[k + 1..]);
      case Clear => NoneDistinct();
      case StartReattachItems =>
      case EndReattachItems =>
      case _ => EditDistinct(cs, u);
    }
  }

  lemma NewDistinct(cs: seq<Chunk>, previous: Option<nat>, c: Chunk, next: Option<nat>)
    requires DistinctEvents(Flat(cs)) && ItemsOf(c) == [] && ApplyNew(cs, previous, c, next).Some?
    ensures DistinctEvents(Flat(ApplyNew(cs, previous, c, next).value))
  {
    hide Flat;
    var k := if previous.None? then 0 else IndexOf(cs, previous.value) + 1;
    assert cs == cs[..k] + cs[k..];
    FlatNew(cs[..k], c, cs[k..]);
  }

  lemma NoneDistinct()
    ensures DistinctEvents(Flat([]))
  {
  }

  lemma {:induction false} LeadsDistinct(cs: seq<Chunk>, us: seq<Update>, cs': seq<Chunk>)
    requires DistinctEvents(Flat(cs)) && Leads(cs, us, cs', true)
    ensures DistinctEvents(Flat(cs'))
    decreases |us|
  {
    hide Apply, Flat, DistinctEvents, KeepsEventsDistinct;
    if us != [] {
      UpdateDistinct(cs, us[0]);
      LeadsDistinct(Apply(cs, us[0]).value, us[1..], cs');
    }
  }

  // --- Every action keeps the invariant --------------------------------------------------

  lemma StoreFollows(st: Store, name: string, us: seq<Update>, cs: seq<Chunk>, vs: seq<Update>, cs': seq<Chunk>)
    requires StoreInSync(st, name, us, cs) && Leads(cs, vs, cs', true)
    ensures StoreInSync(st, name, us + vs, cs')
  {
    hide Holds, Leads;
    var stored: seq<Chunk> :| Holds(st, name, stored) && Leads(stored, us, cs, true);
    LeadsConcat(stored, us, cs, vs, cs', true);
  }

  lemma StoreUpToDate(st: Store, name: string, cs: seq<Chunk>)
    requires StoreInSync(st, name, [], cs)
    ensures Holds(st, name, cs)
  {
    hide Holds;
  }

  lemma LinkedIsTracked(pre: seq<Chunk>, s: State, cap: nat)
    requires Linked(pre, s, cap)
    ensures Tracked(pre, s) && Tracked([], s)
  {
    assert [] + s.chunks == s.chunks;
  }

  lemma HasCapacity(c: Cache)
    requires Inv(c)
    ensures 0 < c.cap
  {
  }

  lemma OperateStaysRight(c: Cache, op: Op, c': Cache)
    requires Inv(c) && Allowed(c, Operate(op)) && Goes(c, Operate(op), c')
    ensures Inv(c')
  {
    hide Shows, Leads, Holds, Linked, DistinctEvents, Step, KeepsDistinct, Flat, Tracked, StoreInSync, InSync;
    var o := Step(c.cap, c.lc, op);
    StepTold(c.pre, c.lc, c.cap, op, true);
    LinkedIsTracked(c.pre, c.lc, c.cap);
    StepSeen(c.pre, c.lc, c.cap, op);
    StepSeen([], c.lc, c.cap, op);
    LeadsDistinct(Full(c), o.updates, Full(c'));
    StoreFollows(c.store, c.name, c.toStore, Full(c), o.updates, Full(c'));
    EnqueuedInSync(c.order, Full(c), o.updates, Full(c'));
    assert [] + c.lc.chunks == c.lc.chunks && [] + o.state.chunks == o.state.chunks;
    forall t | t in c'.vectors ensures InSync(c'.vectors[t], c'.lc.chunks) {
      EnqueuedInSync(c.vectors[t], c.lc.chunks, o.updates, o.state.chunks);
    }
  }

  lemma OperateKeeps(c: Cache, op: Op) returns (c': Cache)
    requires Inv(c) && Allowed(c, Operate(op))
    ensures Goes(c, Operate(op), c') && Inv(c') && DidIt(c, Operate(op), c')
  {
    hide Inv, DidIt, Step, Allowed;
    HasCapacity(c);
    c' := Do(c, Operate(op)).value;
    OperateDoes(c, op, c');
    OperateStaysRight(c, op, c');
  }

  lemma ObserveKeeps(c: Cache, token: nat) returns (c': Cache)
    requires Inv(c) && Allowed(c, Observe(token))
    ensures Goes(c, Observe(token), c') && Inv(c')
  {
    hide Shows, Leads, Holds, Linked, DistinctEvents, Flat, Tracked, StoreInSync, InSync, Lengths;
    var us, lc := InitUpdates(c.lc), Initialized(c.lc);
    c' := Do(c, Observe(token)).value;
    InitTold(c.pre, c.lc, c.cap, true);
    LinkedIsTracked(c.pre, c.lc, c.cap);
    InitSeen(c.pre, c.lc);
    InitSeen([], c.lc);
    StoreFollows(c.store, c.name, c.toStore, Full(c), us, Full(c'));
    EnqueuedInSync(c.order, Full(c), us, Full(c'));
    assert [] + c.lc.chunks == c.lc.chunks && [] + lc.chunks == lc.chunks;
    Fulfilled(lc.chunks);
    forall t | t in c'.vectors ensures InSync(c'.vectors[t], lc.chunks) {
      if t != token { EnqueuedInSync(c.vectors[t], c.lc.chunks, us, lc.chunks); }
    }
  }

  lemma ClearLeads(st: Store, name: string, us: seq<Update>, cs: seq<Chunk>)
    requires StoreInSync(st, name, us, cs)
    ensures StoreInSync(st, name, [Clear], [])
  {
    hide Holds, Leads;
    var stored: seq<Chunk> :| Holds(st, name, stored) && Leads(stored, us, cs, true);
    LeadsOne(stored, Clear, [], true);
  }

  lemma ClearedInSync(r: Reader)
    ensures InSync(Restart(r, [Clear]), [])
  {
    hide Shows;
    ClearShows(Mapper(r.pairs, false, false), r.view);
    EmptyFlat();
  }

  lemma ResetStaysRight(c: Cache, c': Cache)
    requires Inv(c) && Goes(c, Reset, c')
    ensures Inv(c') && Full(c') == [] && c'.store == c.store
  {
    hide Shows, Holds, Leads, StoreInSync, InSync;
    assert Full(c') == [];
    NoneDistinct();
    EmptyFlat();
    ClearLeads(c.store, c.name, c.toStore, Full(c));
    ClearedInSync(c.order);
    forall t | t in c'.vectors ensures InSync(c'.vectors[t], []) { ClearedInSync(c.vectors[t]); }
  }

  lemma ResetKeeps(c: Cache) returns (c': Cache)
    requires Inv(c)
    ensures Goes(c, Reset, c') && Inv(c') && DidIt(c, Reset, c') && Full(c') == [] && c'.store == c.store
  {
    hide Inv, DidIt, Full;
    HasCapacity(c);
    c' := Do(c, Reset).value;
    ResetDoes(c, c');
    ResetStaysRight(c, c');
  }

  /** Bringing the store up to date always succeeds. */
  lemma PropagateKeeps(c: Cache) returns (c': Cache)
    requires Inv(c) && Allowed(c, Propagate)
    ensures Goes(c, Propagate, c') && Inv(c') && ApplyUpdates(c.store, c.name, c.toStore) == Applied(c'.store)
            && Holds(c'.store, c.name, Full(c))
  {
    hide Shows, Holds, Linked, DistinctEvents, Flat, InSync, Leads, ApplyUpdates, NoForeignGaps;
    var stored: seq<Chunk> :| Holds(c.store, c.name, stored) && Leads(stored, c.toStore, Full(c), true);
    UpdatesKept(c.store, c.name, stored, c.toStore, Full(c));
    var st := ApplyUpdates(c.store, c.name, c.toStore).store;
    assert Leads(Full(c), [], Full(c), true) by { NothingLeads(Full(c)); }
    assert StoreInSync(st, c.name, [], Full(c));
    c' := c.(store := st, toStore := []);
  }

  lemma NothingLeads(cs: seq<Chunk>)
    ensures Leads(cs, [], cs, true)
  {
  }

  lemma TakeKeeps(c: Cache, token: nat) returns (c': Cache)
    requires Inv(c) && token in c.vectors
    ensures Goes(c, Take(token), c') && Inv(c') && token in c'.vectors && c'.vectors[token].view == Flat(c.lc.chunks)
  {
    hide Shows, Leads, Holds, Linked, DistinctEvents, Flat, InSync, Lengths, Taken, StoreInSync;
    TakenIsInSync(c.vectors[token], c.lc.chunks);
    Fulfilled(c.lc.chunks);
    c' := c.(vectors := c.vectors[token := Taken(c.vectors[token]).value]);
  }

  lemma FlushOrderKeeps(c: Cache) returns (c': Cache)
    requires Inv(c)
    ensures Goes(c, FlushOrder, c') && Inv(c') && c'.order.pairs == Lengths(Full(c))
  {
    hide Shows, Leads, Holds, Linked, DistinctEvents, Flat, InSync, Lengths, Taken, StoreInSync;
    TakenIsInSync(c.order, Full(c));
    Fulfilled(Full(c));
    c' := c.(order := Taken(c.order).value);
  }

  lemma FullCapacity(c: Cache)
    requires Inv(c)
    ensures WithinCapacity(Full(c), c.cap) && DistinctIds(Full(c))
  {
    hide Shows, Leads, Holds, DistinctEvents, Flat, InSync, StoreInSync;
    var full := Full(c);
    forall i | 0 <= i < |full| ensures |ItemsOf(full[i])| <= c.cap {
      if i < |c.pre| { assert full[i] == c.pre[i]; } else { assert full[i] == c.lc.chunks[i - |c.pre|]; }
    }
  }

  /** The memory after loading chunk `i` of the full list, and everything after it. */
  lemma LoadedIsLinked(cs: seq<Chunk>, i: nat, cap: nat, gen: nat)
    requires i < |cs| && DistinctIds(cs) && IdsUpTo(cs, gen) && WithinCapacity(cs, cap)
    ensures Linked(cs[..i], LoadedFrom(cs, i, gen), cap) && WithinCapacity(cs[..i], cap) && cs[..i] + cs[i..] == cs
  {
    var s := LoadedFrom(cs, i, gen);
    assert cs[..i] + s.chunks == cs;
    SuffixIds(cs[..i], s.chunks, gen);
    assert forall j | 0 <= j < |s.chunks| :: s.chunks[j] == cs[i + j];
  }

  lemma RowBefore(c: Cache, row: Row<nat, Links>)
    requires Inv(c) && Allowed(c, LoadPrevious(row))
    ensures c.pre != [] && LoadRaw(c.store, row) == Ok(RawAt(Full(c), |c.pre| - 1))
  {
    hide Shows, DistinctEvents, Flat, InSync, LoadRaw, Holds;
    StoreUpToDate(c.store, c.name, Full(c));
    var full := Full(c);
    LoadRawIs(c.store, c.name, full, row);
    var i := IndexOf(full, row.key);
    assert full[|c.pre|] == c.lc.chunks[0];
    IndexOfAt(full, |c.pre|);
    IndexOfAt(full, i + 1);
  }

  /** The cache with one more chunk in memory. */
  function Extended(c: Cache): Cache
    requires c.pre != [] && c.lc.chunks != []
  {
    var full, n := Full(c), |c.pre|;
    c.(lc := LoadedFrom(full, n - 1, c.lc.gen), pre := c.pre[..n - 1], toStore := [],
       order := Reader(Lengths(full), Flat(full), []),
       vectors := EnqueueAll(c.vectors, FirstChunkUpdates(RawAt(full, n - 1), Some(c.lc.chunks[0].id))))
  }

  lemma ExtendComputes(c: Cache, row: Row<nat, Links>)
    requires 0 < c.cap && c.pre != [] && c.lc.chunks != []
    requires Taken(c.order) == Some(Reader(Lengths(Full(c)), Flat(Full(c)), []))
    requires LoadRaw(c.store, row) == Ok(RawAt(Full(c), |c.pre| - 1))
    requires InsertNewFirstChunk(c.cap, c.lc, RawAt(Full(c), |c.pre| - 1)) ==
             Built(LoadedFrom(Full(c), |c.pre| - 1, c.lc.gen))
    ensures Goes(c, LoadPrevious(row), Extended(c))
  {
    hide Taken, LoadRaw, InsertNewFirstChunk, FirstChunkUpdates, Flat, Lengths, LoadedFrom, RawAt, EnqueueAll;
  }

  lemma LoadPreviousSucceeds(c: Cache, row: Row<nat, Links>)
    requires Inv(c) && Allowed(c, LoadPrevious(row))
    ensures c.pre != [] && c.lc.chunks != [] && Goes(c, LoadPrevious(row), Extended(c))
  {
    hide Shows, Leads, Holds, DistinctEvents, Flat, InSync, Lengths, Taken, StoreInSync, LoadRaw, WithinCapacity;
    hide DistinctIds, IdsUpTo, Do, Goes;
    hide InsertNewFirstChunk;
    var full, n := Full(c), |c.pre|;
    RowBefore(c, row);
    FullCapacity(c);
    TakenIsInSync(c.order, full);
    assert c.lc == LoadedFrom(full, n, c.lc.gen) by { assert full[n..] == c.lc.chunks; }
    PreviousChunkInserts(full, n, c.cap, c.lc.gen);
    ExtendComputes(c, row);
  }

  /** Loading the previous chunk always succeeds, gives the vectors its items in
      front, and leaves the store and the order of events alone. */
  lemma LoadPreviousKeeps(c: Cache, row: Row<nat, Links>) returns (c': Cache)
    requires Inv(c) && Allowed(c, LoadPrevious(row))
    ensures Goes(c, LoadPrevious(row), c') && Inv(c') && Full(c') == Full(c) && c'.store == c.store && c.pre != []
  {
    hide Shows, Leads, Holds, DistinctEvents, Flat, InSync, Lengths, StoreInSync, WithinCapacity, DistinctIds, IdsUpTo;
    hide Do, Goes;
    LoadPreviousSucceeds(c, row);
    FullCapacity(c);
    c' := Extended(c);
    var full, n := Full(c), |c.pre|;
    Fulfilled(full);
    LoadedIsLinked(full, n - 1, c.cap, c.lc.gen);
    assert c'.pre == full[..n - 1];
    assert [full[n - 1]] + c.lc.chunks == full[n - 1..];
    assert DistinctIds([full[n - 1]] + c.lc.chunks) by { SuffixIds(full[..n - 1], full[n - 1..], c.lc.gen); }
    FirstChunkSeen(c.lc, RawAt(full, n - 1));
    forall t | t in c'.vectors ensures InSync(c'.vectors[t], c'.lc.chunks) {
      EnqueuedInSync(c.vectors[t], c.lc.chunks, FirstChunkUpdates(RawAt(full, n - 1), Some(c.lc.chunks[0].id)),
                     c'.lc.chunks);
    }
  }

  lemma RowLast(c: Cache, row: Row<nat, Links>, largest: nat, metas: seq<Meta>)
    requires Inv(c) && Allowed(c, Shrink(Some(row), largest, metas))
    ensures Full(c) != [] && LoadRaw(c.store, row) == Ok(RawAt(Full(c), |Full(c)| - 1)) && IdsUpTo(Full(c), largest)
  {
    hide Shows, DistinctEvents, Flat, InSync, LoadRaw, Holds, IsMetadata;
    StoreUpToDate(c.store, c.name, Full(c));
    var full := Full(c);
    LoadRawIs(c.store, c.name, full, row);
    forall i | 0 <= i < |full| ensures full[i].id <= largest { RowExists(c.store, c.name, full, i); }
  }

  lemma PairsAreLengths(cs: seq<Chunk>)
    ensures PairsOf(MetasOf(cs)) == Lengths(cs) && |MetasOf(cs)| == |cs|
  {
  }

  /** The tracker is rebuilt from the store as it was. */
  lemma MetadataTells(st: Store, name: string, full: seq<Chunk>, metas: seq<Meta>)
    requires Holds(st, name, full) && IsMetadata(st, name, metas)
    ensures PairsOf(metas) == Lengths(full)
  {
    hide Holds, LoadMetas, MetasOf, IsOrderOf;
    MetadataIs(st, name, full);
    OrderOfMetas(st, name, full, LoadMetas(st, name, st.chunks).value);
    assert metas == MetasOf(full) by { if full == [] { NoMetas(); } }
    PairsAreLengths(full);
  }

  lemma NoMetas()
    ensures MetasOf([]) == []
  {
  }

  /** The cache with only its last chunk in memory. */
  function Shrunken(c: Cache, largest: nat): Cache
    requires Full(c) != []
  {
    var full := Full(c);
    var n := |full| - 1;
    c.(lc := LoadedFrom(full, n, largest), pre := full[..n], toStore := [],
       order := Reader(Lengths(full), Flat(full), []),
       vectors := RestartAll(c.vectors, [Clear] + FirstChunkUpdates(RawAt(full, n), None)))
  }

  lemma ShrinkComputes(c: Cache, row: Row<nat, Links>, largest: nat, metas: seq<Meta>)
    requires 0 < c.cap && Full(c) != [] && PairsOf(metas) == Lengths(Full(c))
    requires Taken(c.order) == Some(Reader(Lengths(Full(c)), Flat(Full(c)), []))
    requires LoadRaw(c.store, row) == Ok(RawAt(Full(c), |Full(c)| - 1))
    requires FromLastChunk(c.cap, Some(RawAt(Full(c), |Full(c)| - 1)), largest) ==
             Built(Some(LoadedFrom(Full(c), |Full(c)| - 1, largest)))
    ensures Goes(c, Shrink(Some(row), largest, metas), Shrunken(c, largest))
  {
    hide Taken, LoadRaw, FirstChunkUpdates, Flat, Lengths, LoadedFrom, RawAt, RestartAll, PairsOf;
  }

  lemma ShrinkSucceeds(c: Cache, row: Row<nat, Links>, largest: nat, metas: seq<Meta>)
    requires Inv(c) && Allowed(c, Shrink(Some(row), largest, metas))
    ensures Full(c) != [] && Goes(c, Shrink(Some(row), largest, metas), Shrunken(c, largest))
  {
    hide Shows, Leads, Holds, DistinctEvents, Flat, InSync, Lengths, Taken, StoreInSync, LoadRaw, WithinCapacity;
    hide DistinctIds, IdsUpTo, Linked;
    hide FromLastChunk, FirstChunkUpdates, Do, Goes, Shrunken, LoadedFrom, IsMetadata;
    RowLast(c, row, largest, metas);
    StoreUpToDate(c.store, c.name, Full(c));
    MetadataTells(c.store, c.name, Full(c), metas);
    FullCapacity(c);
    TakenIsInSync(c.order, Full(c));
    LastChunkBuilds(Full(c), c.cap, largest);
    ShrinkComputes(c, row, largest, metas);
  }

  lemma ShrunkenIsLinked(full: seq<Chunk>, cap: nat, largest: nat)
    requires full != [] && DistinctIds(full) && IdsUpTo(full, largest) && WithinCapacity(full, cap)
    ensures var n := |full| - 1;
            && Linked(full[..n], LoadedFrom(full, n, largest), cap) && WithinCapacity(full[..n], cap)
            && LoadedFrom(full, n, largest).chunks == [full[n]] && full[..n] + [full[n]] == full
  {
    hide DistinctIds, IdsUpTo, WithinCapacity, Linked;
    LoadedIsLinked(full, |full| - 1, cap, largest);
  }

  lemma ShrunkenKeeps(c: Cache, largest: nat)
    requires 0 < c.cap && Full(c) != [] && c.toStore == [] && DistinctEvents(Flat(Full(c)))
    requires StoreInSync(c.store, c.name, [], Full(c))
    requires DistinctIds(Full(c)) && IdsUpTo(Full(c), largest) && WithinCapacity(Full(c), c.cap)
    ensures Inv(Shrunken(c, largest)) && Full(Shrunken(c, largest)) == Full(c)
  {
    hide DistinctEvents, Flat, InSync, Lengths, StoreInSync, WithinCapacity, DistinctIds, IdsUpTo, Linked, LoadedFrom;
    hide FirstChunkUpdates, RestartAll;
    var full, c' := Full(c), Shrunken(c, largest);
    var n := |full| - 1;
    ShrunkenIsLinked(full, c.cap, largest);
    assert c'.lc.chunks == [full[n]] && c'.pre == full[..n] && Full(c') == full;
    Fulfilled(full);
    AllRestartedInSync(c.vectors, RawAt(full, n));
  }

  lemma StoredQuietly(c: Cache)
    requires Inv(c) && c.toStore == []
    ensures 0 < c.cap && DistinctEvents(Flat(Full(c))) && StoreInSync(c.store, c.name, [], Full(c))
  {
    hide DistinctEvents, Flat, InSync, StoreInSync, Linked, WithinCapacity;
  }

  /** Dropping everything but the last chunk always succeeds too. */
  lemma ShrinkToLastKeeps(c: Cache, row: Row<nat, Links>, largest: nat, metas: seq<Meta>) returns (c': Cache)
    requires Inv(c) && Allowed(c, Shrink(Some(row), largest, metas))
    ensures Goes(c, Shrink(Some(row), largest, metas), c') && Inv(c') && Full(c') == Full(c) && c'.store == c.store
  {
    hide Inv, Allowed, Goes, Full, Flat, DistinctEvents, StoreInSync, WithinCapacity, DistinctIds, IdsUpTo, LoadRaw;
    hide RawAt;
    ShrinkSucceeds(c, row, largest, metas);
    RowLast(c, row, largest, metas);
    FullCapacity(c);
    ShrinkIsQuiet(c, Some(row), largest, metas);
    StoredQuietly(c);
    ShrunkenKeeps(c, largest);
    c' := Shrunken(c, largest);
  }

  lemma AllRestartedInSync(rs: map<nat, Reader>, raw: RawChunk)
    requires raw.next.None?
    ensures var rs' := RestartAll(rs, [Clear] + FirstChunkUpdates(raw, None));
            forall t | t in rs' :: InSync(rs'[t], [Chunk(raw.id, raw.content)])
  {
    hide InSync, FirstChunkUpdates;
    var us := [Clear] + FirstChunkUpdates(raw, None);
    forall t | t in rs ensures InSync(Restart(rs[t], us), [Chunk(raw.id, raw.content)]) { RestartedInSync(rs[t], raw); }
  }

  lemma ShrinkIsQuiet(c: Cache, last: Option<Row<nat, Links>>, largest: nat, metas: seq<Meta>)
    requires Allowed(c, Shrink(last, largest, metas))
    ensures c.toStore == [] && IsLastRow(c.store, c.name, last)
  {
  }

  /** Without a stored chunk there is none in memory either; the first one is made anew. */
  lemma ShrinkToNothingKeeps(c: Cache, largest: nat, metas: seq<Meta>) returns (c': Cache)
    requires Inv(c) && Allowed(c, Shrink(None, largest, metas))
    ensures Full(c) == [] && Goes(c, Shrink(None, largest, metas), c') && Inv(c') && Flat(Full(c')) == []
            && c'.store == c.store
  {
    hide Shows, Leads, Holds, DistinctEvents, Flat, InSync, Lengths, Taken, StoreInSync, Linked, Allowed;
    hide WithinCapacity;
    ShrinkIsQuiet(c, None, largest, metas);
    StoreUpToDate(c.store, c.name, Full(c));
    assert Full(c) == [] by { if Full(c) != [] { RowExists(c.store, c.name, Full(c), 0); } }
    TakenIsInSync(c.order, Full(c));
    c' := Emptied(c);
    var us, lc := InitUpdates(Fresh), Initialized(Fresh);
    assert Full(c') == lc.chunks && [] + lc.chunks == lc.chunks;
    FreshIsLinked(c.cap);
    InitTold([], Fresh, c.cap, true);
    assert [] + Fresh.chunks == [];
    StoreFollows(c.store, c.name, [], [], us, lc.chunks);
    assert [] + us == us;
    Fulfilled(lc.chunks);
    InitSeen([], Fresh);
    assert Flat(lc.chunks) == Flat([]) == [] by { InitiallyEmpty(); }
    NoneDistinct();
    forall t | t in c'.vectors ensures InSync(c'.vectors[t], lc.chunks) {
      ClearedInSync(c.vectors[t]);
      EnqueuedInSync(Restart(c.vectors[t], [Clear]), [], us, lc.chunks);
    }
  }

  lemma FreshIsLinked(cap: nat)
    ensures Linked([], Fresh, cap) && Tracked([], Fresh) && WithinCapacity([], cap)
  {
  }

  lemma InitiallyEmpty()
    ensures Flat(Initialized(Fresh).chunks) == [] && Flat([]) == []
  {
    FlatOne(Chunk(0, Items([])));
  }

  lemma ShrinkKeeps(c: Cache, last: Option<Row<nat, Links>>, largest: nat, metas: seq<Meta>) returns (c': Cache)
    requires Inv(c) && Allowed(c, Shrink(last, largest, metas))
    ensures Goes(c, Shrink(last, largest, metas), c') && Inv(c') && c'.store == c.store
    ensures Flat(Full(c')) == Flat(Full(c)) && (last.Some? ==> Full(c') == Full(c))
  {
    hide Goes, Inv, Allowed, Flat, Full;
    match last
    case None => c' := ShrinkToNothingKeeps(c, largest, metas); InitiallyEmpty();
    case Some(row) => c' := ShrinkToLastKeeps(c, row, largest, metas);
  }

  // --- Other linked chunks in the store ----------------------------------------------------

  lemma PeacefulAgrees(st: Store, name: string, cs: seq<Chunk>, u: Update)
    requires Holds(st, name, cs) && IsPeaceful(st, name, u)
    ensures Agrees(cs, u)
  {
    hide Holds, AgreesOn, AgreesWithStored;
    match u {
      case PushItems(_, items) => forall e | e in items ensures AgreesOn(cs, e) { StoredAgrees(st, name, cs, e); }
      case ReplaceItem(_, item) => StoredAgrees(st, name, cs, item);
      case _ =>
    }
  }

  lemma ForeignHolds(st: Store, name: string, cs: seq<Chunk>, other: string, u: Update)
    requires Holds(st, name, cs) && other != name && IsPeaceful(st, name, u) && !ApplyUpdate(st, other, u).Panicked?
    ensures Holds(ApplyUpdate(st, other, u).store, name, cs)
  {
    hide Holds;
    PeacefulAgrees(st, name, cs, u);
    if u.ReplaceItem? {
      ReplaceIsolatedIff(st, other, u.at, u.item, name, cs);
    } else {
      UpdateIsolated(st, other, u, name, cs);
    }
  }

  /** Updates of other linked chunks, successful or not, change nothing here. */
  lemma ForeignKeeps(c: Cache, other: string, u: Update) returns (c': Cache)
    requires Inv(c) && Allowed(c, Foreign(other, u))
    ensures Goes(c, Foreign(other, u), c') && Inv(c') && Full(c') == Full(c)
  {
    hide Shows, Leads, Holds, DistinctEvents, Flat, InSync, Linked, WithinCapacity, ApplyUpdate, IsPeaceful;
    var stored: seq<Chunk> :| Holds(c.store, c.name, stored) && Leads(stored, c.toStore, Full(c), true);
    ForeignHolds(c.store, c.name, stored, other, u);
    c' := c.(store := ApplyUpdate(c.store, other, u).store);
  }

  lemma RestartedInSync(r: Reader, raw: RawChunk)
    requires raw.next.None?
    ensures InSync(Restart(r, [Clear] + FirstChunkUpdates(raw, None)), [Chunk(raw.id, raw.content)])
  {
    hide Shows;
    ReplacedSeen(Mapper(r.pairs, false, false), r.view, raw);
  }

  // --- Every action is carried out -------------------------------------------------------

  /** Everything but what is named is as it was. */
  ghost predicate SameList(c: Cache, c': Cache) {
    c'.name == c.name && c'.cap == c.cap && c'.lc == c.lc && c'.pre == c.pre
  }

  /** What an action does. The operations of the linked chunk, clearing it, and what others do
      to the store are carried out; everything else leaves the linked chunk as it is, and
      moves chunks, updates or views as it should. */
  ghost predicate DidIt(c: Cache, a: Action, c': Cache) {
    && c'.name == c.name && c'.cap == c.cap
    && match a
       case Operate(op) =>
         && c'.pre == c.pre && c'.store == c.store && c'.vectors.Keys == c.vectors.Keys
         && Means.Contents(Initialized(c.lc).chunks) == Means.Contents(c.lc.chunks)
         && exists reply :: Shape.Carried(c.cap, Initialized(c.lc).chunks, c'.lc.chunks, op, reply)
       case Reset => Full(c') == [] && c'.store == c.store && c'.vectors.Keys == c.vectors.Keys
       case Propagate =>
         && SameList(c, c') && c'.order == c.order && c'.vectors == c.vectors
         && c'.toStore == [] && Holds(c'.store, c.name, Full(c))
       case Observe(token) =>
         && c'.pre == c.pre && c'.store == c.store && Means.Contents(c'.lc.chunks) == Means.Contents(c.lc.chunks)
         && c'.vectors.Keys == c.vectors.Keys + {token} && c'.vectors[token].view == Flat(c'.lc.chunks)
       case Take(token) =>
         && SameList(c, c') && c'.store == c.store && c'.toStore == c.toStore && c'.order == c.order
         && token in c.vectors && token in c'.vectors && c'.vectors == c.vectors[token := c'.vectors[token]]
         && c'.vectors[token].view == Flat(c.lc.chunks) && c'.vectors[token].queue == []
       case FlushOrder =>
         && SameList(c, c') && c'.store == c.store && c'.toStore == c.toStore && c'.vectors == c.vectors
         && c'.order.pairs == Lengths(Full(c)) && c'.order.queue == []
       case LoadPrevious(_) =>
         && Full(c') == Full(c) && c'.store == c.store && c'.vectors.Keys == c.vectors.Keys
         && |c.pre| == |c'.pre| + 1
       case Shrink(last, _, _) =>
         && c'.store == c.store && c'.vectors.Keys == c.vectors.Keys
         && Flat(Full(c')) == Flat(Full(c)) && |c'.lc.chunks| == 1 && (last.Some? ==> Full(c') == Full(c))
       case Foreign(other, u) =>
         && SameList(c, c') && c'.toStore == c.toStore && c'.order == c.order && c'.vectors == c.vectors
         && var o := ApplyUpdate(c.store, other, u); !o.Panicked? && c'.store == o.store
  }

  lemma OperateDoes(c: Cache, op: Op, c': Cache)
    requires Goes(c, Operate(op), c')
    ensures DidIt(c, Operate(op), c')
  {
    hide Step, Shape.Carried, Means.Contents;
    Shape.StepCarried(c.cap, c.lc, op);
    assert Shape.Carried(c.cap, Initialized(c.lc).chunks, c'.lc.chunks, op, Step(c.cap, c.lc, op).reply);
  }

  lemma ObserveDoes(c: Cache, token: nat, c': Cache)
    requires Goes(c, Observe(token), c')
    ensures DidIt(c, Observe(token), c')
  {
    hide Means.Contents, Flat, Lengths;
    Means.InitMeansNothing(c.lc);
  }

  lemma TakeDoes(c: Cache, token: nat, c': Cache)
    requires Inv(c) && token in c.vectors && Goes(c, Action.Take(token), c')
    ensures DidIt(c, Action.Take(token), c')
  {
    hide Shows, Leads, Holds, Linked, DistinctEvents, Flat, InSync, Lengths, Taken, StoreInSync;
    TakenIsInSync(c.vectors[token], c.lc.chunks);
  }

  lemma FlushDoes(c: Cache, c': Cache)
    requires Inv(c) && Goes(c, FlushOrder, c')
    ensures DidIt(c, FlushOrder, c')
  {
    hide Shows, Leads, Holds, Linked, DistinctEvents, Flat, InSync, Lengths, Taken, StoreInSync;
    TakenIsInSync(c.order, Full(c));
  }

  lemma PropagateDoes(c: Cache, c': Cache)
    requires Goes(c, Propagate, c') && Holds(c'.store, c.name, Full(c))
    ensures DidIt(c, Propagate, c')
  {
    hide Holds, ApplyUpdates;
  }

  lemma LoadPreviousDoes(c: Cache, row: Row<nat, Links>, c': Cache)
    requires c.pre != [] && Goes(c, LoadPrevious(row), c') && Full(c') == Full(c) && c'.store == c.store
    ensures DidIt(c, LoadPrevious(row), c')
  {
    hide Taken, LoadRaw, InsertNewFirstChunk, FirstChunkUpdates, Full;
  }

  lemma ShrinkDoes(c: Cache, last: Option<Row<nat, Links>>, largest: nat, metas: seq<Meta>, c': Cache)
    requires Goes(c, Shrink(last, largest, metas), c') && c'.store == c.store
    requires Flat(Full(c')) == Flat(Full(c)) && (last.Some? ==> Full(c') == Full(c))
    ensures DidIt(c, Shrink(last, largest, metas), c')
  {
    hide Taken, LoadRaw, FirstChunkUpdates, Full, Flat, PairsOf, Lengths;
  }

  lemma ForeignDoes(c: Cache, other: string, u: Update, c': Cache)
    requires Goes(c, Foreign(other, u), c')
    ensures DidIt(c, Foreign(other, u), c')
  {
    hide ApplyUpdate;
  }

  lemma ResetDoes(c: Cache, c': Cache)
    requires Goes(c, Reset, c')
    ensures DidIt(c, Reset, c')
  {
  }

  // --- Every run -----------------------------------------------------------------------

  /** Nothing that the surroundings allow can make the cache panic or fail, and all of it is
      carried out. */
  lemma ActionKeeps(c: Cache, a: Action) returns (c': Cache)
    requires Inv(c) && Allowed(c, a)
    ensures Goes(c, a, c') && Inv(c') && DidIt(c, a, c')
  {
    hide Goes, Inv, DidIt, Full, Flat;
    match a
    case Operate(op) => c' := OperateKeeps(c, op);
    case Reset => c' := ResetKeeps(c);
    case Propagate => c' := PropagateKeeps(c); PropagateDoes(c, c');
    case Observe(token) => c' := ObserveKeeps(c, token); ObserveDoes(c, token, c');
    case Take(token) => c' := TakeKeeps(c, token); TakeDoes(c, token, c');
    case FlushOrder => c' := FlushOrderKeeps(c); FlushDoes(c, c');
    case LoadPrevious(row) => c' := LoadPreviousKeeps(c, row); LoadPreviousDoes(c, row, c');
    case Shrink(last, largest, metas) => c' := ShrinkKeeps(c, last, largest, metas); ShrinkDoes(c, last, largest, metas,
          c');
    case Foreign(other, update) => c' := ForeignKeeps(c, other, update); ForeignDoes(c, other, update, c');
  }

  /** A run of allowed actions: the caches before, between and after them. */
  ghost predicate IsRun(caches: seq<Cache>, actions: seq<Action>) {
    |caches| == |actions| + 1 && forall i | 0 <= i < |actions| :: ActsAt(caches, actions, i)
  }

  ghost predicate ActsAt(caches: seq<Cache>, actions: seq<Action>, i: nat) {
    i < |actions| < |caches| && Allowed(caches[i], actions[i]) && Goes(caches[i], actions[i], caches[i + 1])
  }

  /** The cache of a linked chunk that the store holds: only its last chunk, if any, is in
      memory, but the order tracker knows all. */
  function Opened(name: string, cap: nat, store: Store, full: seq<Chunk>, largest: nat): Cache {
    var order := Reader(Lengths(full), Flat(full), []);
    if full == [] then Cache(name, cap, Fresh, [], store, [], order, map[])
    else Cache(name, cap, LoadedFrom(full, |full| - 1, largest), full[..|full| - 1], store, [], order, map[])
  }

  ghost predicate RecordsPositions(known: map<string, Stored>, cs: seq<Chunk>) {
    forall p: Position | At(cs, p).Some? :: At(cs, p).value.id in known && known[At(cs, p).value.id].position == Some(p)
  }

  lemma IndexFirst(c: Chunk, rest: seq<Chunk>, id: nat)
    ensures IndexOf([c] + rest, id) == if c.id == id then 0 else 1 + IndexOf(rest, id)
  {
    assert ([c] + rest)[1..] == rest;
  }

  lemma FirstIsAlone(c: Chunk, rest: seq<Chunk>)
    requires DistinctIds([c] + rest)
    ensures DistinctIds(rest) && IndexOf(rest, c.id) == |rest|
  {
    RestIds(c, rest);
    var cs := [c] + rest;
    forall i | 0 <= i < |rest| ensures rest[i].id != c.id { assert cs[0] == c && cs[i + 1] == rest[i]; }
    IndexOfAbsent(rest, c.id);
  }

  lemma AtFirst(c: Chunk, rest: seq<Chunk>, p: Position)
    requires DistinctIds([c] + rest)
    ensures DistinctIds(rest)
    ensures At([c] + rest, p) ==
            if p.chunk != c.id then At(rest, p) else if p.index < |ItemsOf(c)| then Some(ItemsOf(c)[p.index]) else None
    ensures At(rest, p).Some? ==> p.chunk != c.id
  {
    hide IndexOf, DistinctIds;
    FirstIsAlone(c, rest);
    IndexFirst(c, rest, p.chunk);
  }

  /** No event is stored twice. */
  lemma {:induction false} DistinctPositions(cs: seq<Chunk>, known: map<string, Stored>)
    requires DistinctIds(cs) && RecordsPositions(known, cs)
    ensures DistinctEvents(Flat(cs))
  {
    hide DistinctIds, At, IndexOf;
    if cs != [] {
      var c, rest := cs[0], cs[1..];
      assert cs == [c] + rest;
      forall p: Position
        ensures DistinctIds(rest) && (At(rest, p).Some? ==> At(cs, p) == At(rest, p) && p.chunk != c.id)
        ensures p.chunk == c.id && p.index < |ItemsOf(c)| ==> At(cs, p) == Some(ItemsOf(c)[p.index])
      {
        AtFirst(c, rest, p);
      }
      AtFirst(c, rest, Position(0, 0));
      DistinctPositions(rest, known);
      forall i, j | 0 <= i < j < |ItemsOf(c)| ensures ItemsOf(c)[i].id != ItemsOf(c)[j].id {
        assert At(cs, Position(c.id, i)).Some? && At(cs, Position(c.id, j)).Some?;
      }
      forall x, y | x in ItemsOf(c) && y in Flat(rest) ensures x.id != y.id {
        var i :| 0 <= i < |ItemsOf(c)| && ItemsOf(c)[i] == x;
        var q := HasPosition(rest, y);
        assert At(cs, Position(c.id, i)) == Some(x) && At(cs, q) == Some(y);
      }
      DistinctConcat(ItemsOf(c), Flat(rest));
    }
  }

  lemma StoredDistinct(st: Store, name: string, cs: seq<Chunk>)
    requires Holds(st, name, cs)
    ensures DistinctEvents(Flat(cs)) && DistinctIds(cs)
  {
    hide LinksOk, RowsOk, PlacesOk, At, Flat;
    DistinctPositions(cs, KnownItems(st.items, name));
  }

  lemma OpenedIsInSync(name: string, cap: nat, store: Store, full: seq<Chunk>, largest: nat)
    requires 0 < cap && Holds(store, name, full) && WithinCapacity(full, cap) && IdsUpTo(full, largest)
    ensures Inv(Opened(name, cap, store, full, largest)) && Full(Opened(name, cap, store, full, largest)) == full
  {
    hide Holds, Linked, Shows, Flat, Lengths, DistinctEvents, DistinctIds, IdsUpTo, WithinCapacity, InSync;
    var c := Opened(name, cap, store, full, largest);
    StoredDistinct(store, name, full);
    if full == [] {
      FreshIsLinked(cap);
    } else {
      LoadedIsLinked(full, |full| - 1, cap, largest);
    }
    assert Full(c) == full;
    assert Leads(full, [], full, true) by { NothingLeads(full); }
    assert StoreInSync(store, name, [], full);
    Fulfilled(full);
  }

  /** How the cache of a room starts. From any store that holds the linked chunk it becomes
      the opened cache. What cannot be loaded is cleared instead, whatever it was, and the
      cache starts empty. */
  method Open(name: string, cap: nat, store: Store) returns (lc: State, pairs: seq<Pair>, store': Store, largest: nat)
    ensures forall full: seq<Chunk> | Holds(store, name, full) && WithinCapacity(full, cap) ::
              && store' == store && IsLargest(largest, full)
              && lc == Opened(name, cap, store, full, largest).lc && pairs == Lengths(full)
    ensures store' != store ==> Holds(store', name, []) && lc == Fresh && pairs == []
  {
    hide Holds, IsLargest, WithinCapacity, LoadedFrom, MetasOf, Lengths, ClearAll, LoadMetas, IsOrderOf;
    store' := store;
    var loaded := LoadLinkedChunkMetadata(store, name);
    var metas: seq<Meta> := [];
    if loaded.Ok? && !loaded.value.BadMetadata? {
      metas := if loaded.value.Ordered? then loaded.value.metas else [];
    } else {
      store' := ClearAll(store, name);
      ClearHolds(store, name);
    }
    var last := LoadLastChunk(store', name);
    var built := if last.Ok? then FromLastChunk(cap, last.value.0, last.value.1) else Refused(ChunkIsNotLast(0));
    largest := if last.Ok? then last.value.1 else 0;
    NoLengths();
    if store' != store { assert IsLast(last, []); }
    match built {
      case Refused(_) =>
        ClearHolds(store', name);
        store', lc, metas := ClearAll(store', name), Fresh, [];
      case Built(None) => lc := Fresh;
      case Built(Some(state)) => lc := state;
    }
    pairs := if metas == [] then Lengths(lc.chunks) else PairsOf(metas);
    forall full: seq<Chunk> | Holds(store, name, full) && WithinCapacity(full, cap)
      ensures && store' == store && IsLargest(largest, full)
              && lc == Opened(name, cap, store, full, largest).lc && pairs == Lengths(full)
    {
      assert IsLast(last, full);
      PairsAreLengths(full);
      if full != [] { LastChunkBuilds(full, cap, largest); }
    }
  }

  lemma NoLengths()
    ensures Lengths([]) == []
  {
  }

  lemma {:induction false} RunKeeps(caches: seq<Cache>, actions: seq<Action>, i: nat)
    requires IsRun(caches, actions) && Inv(caches[0]) && i <= |actions|
    ensures Inv(caches[i])
  {
    hide Inv, Allowed, Do;
    if i > 0 {
      RunKeeps(caches, actions, i - 1);
      assert ActsAt(caches, actions, i - 1);
      var c' := ActionKeeps(caches[i - 1], actions[i - 1]);
    }
  }

  /** Every vector that takes its updates shows exactly the items in memory. */
  ghost predicate VectorsRight(c: Cache) {
    forall t | t in c.vectors :: Taken(c.vectors[t]).Some? && Taken(c.vectors[t]).value.view == Flat(c.lc.chunks)
  }

  /** A store that takes its updates holds exactly the linked chunk, loaded or not. */
  ghost predicate StoreRight(c: Cache) {
    NoForeignGaps(c.store, c.name, c.toStore) ==>
      var o := ApplyUpdates(c.store, c.name, c.toStore); o.Applied? && Holds(o.store, c.name, Full(c))
  }

  /** An up-to-date order tracker gives every event its index in the linked chunk. */
  ghost predicate OrderRight(c: Cache) {
    && Taken(c.order).Some?
    && forall p: Position | At(Full(c), p).Some? ::
         var i := Readers.OrderOf(Taken(c.order).value.pairs, p);
         i.Some? && i.value < |Flat(Full(c))| && Flat(Full(c))[i.value] == At(Full(c), p).value
  }

  /** The whole story: at any point of any run, from whatever linked chunk the store holds
      at the start, everyone who observes it can catch up with it, whatever is allowed next
      succeeds, and what was done next has been carried out. */
  lemma EveryRun(name: string, cap: nat, store: Store, full: seq<Chunk>, largest: nat,
                 caches: seq<Cache>, actions: seq<Action>, i: nat)
    requires 0 < cap && Holds(store, name, full) && WithinCapacity(full, cap) && IdsUpTo(full, largest)
    requires IsRun(caches, actions) && caches[0] == Opened(name, cap, store, full, largest) && i <= |actions|
    ensures VectorsRight(caches[i]) && StoreRight(caches[i]) && OrderRight(caches[i])
    ensures i < |actions| ==> DidIt(caches[i], actions[i], caches[i + 1])
    ensures forall a | Allowed(caches[i], a) :: Ready(caches[i], a) && Do(caches[i], a).Some?
  {
    hide Inv, Do, Allowed, Ready, ActsAt, VectorsRight, StoreRight, OrderRight, Holds;
    OpenedIsInSync(name, cap, store, full, largest);
    RunKeeps(caches, actions, i);
    var c := caches[i];
    ObserversRight(c);
    if i < |actions| { RunDoes(caches, actions, i); }
    forall a | Allowed(c, a) ensures Ready(c, a) && Do(c, a).Some? { var c' := ActionKeeps(c, a); }
  }

  lemma RunDoes(caches: seq<Cache>, actions: seq<Action>, i: nat)
    requires IsRun(caches, actions) && i < |actions| && Inv(caches[i])
    ensures DidIt(caches[i], actions[i], caches[i + 1])
  {
    hide Inv, Allowed, Do, DidIt;
    assert ActsAt(caches, actions, i);
    var c' := ActionKeeps(caches[i], actions[i]);
  }

  lemma ObserversRight(c: Cache)
    requires Inv(c)
    ensures VectorsRight(c) && StoreRight(c) && OrderRight(c)
  {
    hide Shows, Leads, Holds, Flat, Lengths, Taken, ApplyUpdates, NoForeignGaps, DistinctEvents, IndexOf;
    hide Readers.OrderOf, InSync, Linked, StoreInSync;
    forall t | t in c.vectors ensures Taken(c.vectors[t]).Some? && Taken(c.vectors[t]).value.view == Flat(c.lc.chunks) {
      TakenIsInSync(c.vectors[t], c.lc.chunks);
    }
    if NoForeignGaps(c.store, c.name, c.toStore) { var c' := PropagateKeeps(c); }
    TakenIsInSync(c.order, Full(c));
    FullCapacity(c);
    forall p: Position | At(Full(c), p).Some?
      ensures var i := Readers.OrderOf(Taken(c.order).value.pairs, p);
              i.Some? && i.value < |Flat(Full(c))| && Flat(Full(c))[i.value] == At(Full(c), p).value
    {
      Readers.OrderIsIndex(Full(c), p);
    }
  }
}
