/** The scripts of the benchmarks: what they write to a store, and that reading it back,
    chunk by chunk from the end, gives exactly that. */
module BenchScripts {
  import opened LinkedChunkModel
  import opened Wrappers
  import opened LinkedChunkOps
  import opened LinkedChunkTruth
  import opened LinkedChunkContents
  import opened Relational
  import opened RelationalTruth
  import opened LazyLoader

  const BLOCK: nat := 80
  const CAPACITY: nat := 128

  function Min(a: nat, b: nat): nat {
    if a <= b then a else b
  }

  function Decimal(n: nat): string {
    if n < 10 then ["0123456789"[n]] else Decimal(n / 10) + ["0123456789"[n % 10]]
  }

  function GapName(n: nat): string {
    "gap" + Decimal(n)
  }

  // --- The operations ----------------------------------------------------------------------

  function Block(events: seq<Event>, k: nat): seq<Event>
    requires BLOCK * k <= |events|
  {
    events[BLOCK * k..Min(BLOCK * k + BLOCK, |events|)]
  }

  function Blocks(events: seq<Event>): nat {
    (|events| + BLOCK - 1) / BLOCK
  }

  /** The `k`th block and its gap. */
  predicate IsBlock(events: seq<Event>, operations: seq<Op>, k: nat) {
    && BLOCK * k < |events| && 2 * k + 1 < |operations|
    && operations[2 * k] == PushItemsBack(Block(events, k)) && Block(events, k) != []
    && operations[2 * k + 1] == PushGapBack(GapName(k))
  }

  lemma BlockAdded(events: seq<Event>, operations: seq<Op>, n: nat, k: nat)
    requires |operations| == 2 * n && BLOCK * n < |events| && k <= n && (k < n ==> IsBlock(events, operations, k))
    ensures IsBlock(events, operations + [PushItemsBack(Block(events, n))] + [PushGapBack(GapName(n))], k)
  {
    hide GapName;
  }

  lemma NextBlock(events: seq<Event>, n: nat)
    requires BLOCK * n < |events|
    ensures var (rest, m) := (events[BLOCK * n..], Min(BLOCK, |events| - BLOCK * n));
            m <= |rest| && rest[..m] == Block(events, n) && rest[m..] == events[Min(BLOCK * (n + 1), |events|)..]
  {
  }

  /** Everything is pushed, in order, in full blocks but for the last, each followed by a
      gap; and the loop always ends at its guard, never at the check inside it. */
  method BuildOperations(events: seq<Event>) returns (operations: seq<Op>, broke: bool)
    ensures !broke && |operations| == 2 * Blocks(events)
    ensures forall k | 0 <= k < Blocks(events) :: IsBlock(events, operations, k)
  {
    hide GapName, IsBlock, Block;
    operations, broke := [], false;
    var rest := events;
    var gapNth := 0;
    while rest != []
      invariant |operations| == 2 * gapNth && rest == events[Min(BLOCK * gapNth, |events|)..]
      invariant gapNth == 0 || BLOCK * (gapNth - 1) < |events|
      invariant forall k | 0 <= k < gapNth :: IsBlock(events, operations, k)
      decreases |rest|
    {
      ghost var before := operations;
      var n := Min(BLOCK, |rest|);
      var toPush := rest[..n];
      if toPush == [] {
        broke := true;
        break;
      }
      NextBlock(events, gapNth);
      ghost var block, gap := PushItemsBack(toPush), PushGapBack(GapName(gapNth));
      operations := operations + [PushItemsBack(toPush)];
      operations := operations + [PushGapBack(GapName(gapNth))];
      assert operations == before + [block] + [gap];
      forall k | 0 <= k <= gapNth ensures IsBlock(events, operations, k) { BlockAdded(events, before, gapNth, k); }
      rest := rest[n..];
      gapNth := gapNth + 1;
    }
  }

  // --- Writing -------------------------------------------------------------------------------

  /** The first `k` blocks, each with its gap. */
  function Written(events: seq<Event>, k: nat): seq<Entry>
    requires k == 0 || BLOCK * (k - 1) <= |events|
  {
    if k == 0 then [] else Written(events, k - 1) + Entries(Block(events, k - 1)) + [Hole(GapName(k - 1))]
  }

  function EventsOf(entries: seq<Entry>): seq<Event> {
    if entries == [] then []
    else
      var front, last := EventsOf(entries[..|entries| - 1]), entries[|entries| - 1];
      if last.Item? then front + [last.event] else front
  }

  lemma {:induction false} EventsOfConcat(a: seq<Entry>, b: seq<Entry>)
    ensures EventsOf(a + b) == EventsOf(a) + EventsOf(b)
    decreases |b|
  {
    if b == [] {
      assert a + b == a;
    } else {
      assert (a + b)[..|a + b| - 1] == a + b[..|b| - 1];
      EventsOfConcat(a, b[..|b| - 1]);
    }
  }

  lemma {:induction false} EventsOfEntries(items: seq<Event>)
    ensures EventsOf(Entries(items)) == items
  {
    if items != [] {
      var front := items[..|items| - 1];
      assert Entries(items)[..|items| - 1] == Entries(front);
      EventsOfEntries(front);
      assert items == front + [items[|items| - 1]];
    }
  }

  lemma {:induction false} EventsAreFlat(cs: seq<Chunk>)
    ensures EventsOf(Contents(cs)) == Flat(cs)
  {
    if cs != [] {
      EventsAreFlat(cs[1..]);
      EventsOfConcat(ChunkEntries(cs[0]), Contents(cs[1..]));
      match cs[0].content
      case Items(items) => EventsOfEntries(items);
      case Gap(token) => assert EventsOf([Hole(token)]) == [] by { assert [Hole(token)][..0] == []; }
    }
  }

  lemma {:induction false} WrittenEvents(events: seq<Event>, k: nat)
    requires k == 0 || BLOCK * (k - 1) <= |events|
    ensures EventsOf(Written(events, k)) == events[..Min(BLOCK * k, |events|)]
  {
    hide GapName;
    if k > 0 {
      var before, block, hole := Written(events, k - 1), Entries(Block(events, k - 1)), [Hole(GapName(k - 1))];
      WrittenEvents(events, k - 1);
      EventsOfConcat(before + block, hole);
      EventsOfConcat(before, block);
      EventsOfEntries(Block(events, k - 1));
      assert EventsOf(hole) == [] by { assert hole[..0] == []; }
    }
  }

  lemma {:induction false} SpillReplacesNothing(cap: nat, c: Chunk, next: Option<nat>, items: seq<Event>, gen: nat)
    requires 0 < cap
    ensures forall u | u in Spill(cap, c, next, items, gen).updates :: !u.ReplaceItem?
    decreases |items|, if FreeSpace(c, cap) > 0 then 0 else 1
  {
    if items != [] && !(c.content.Items? && |items| <= FreeSpace(c, cap)) {
      SpillReplacesNothing(cap, Chunk(gen + 1, Items([])), next, items[FreeSpace(c, cap)..], gen + 1);
    }
  }

  lemma PushReplacesNothing(cap: nat, s: State, op: Op)
    requires 0 < cap && (op.PushItemsBack? || op.PushGapBack?)
    ensures forall u | u in Step(cap, s, op).updates :: !u.ReplaceItem?
  {
    hide Spill;
    if op.PushItemsBack? {
      var s1 := Initialized(s);
      var k := |s1.chunks| - 1;
      SpillReplacesNothing(cap, s1.chunks[k], IdAt(s1.chunks, k + 1), op.items, s1.gen);
    }
  }

  /** What is kept while the script runs. */
  ghost predicate Telling(s: State, updates: seq<Update>) {
    && Linked([], s, CAPACITY) && Leads([], updates, s.chunks, true)
    && forall u | u in updates :: !u.ReplaceItem?
  }

  lemma PushTells(s: State, updates: seq<Update>, op: Op)
    requires Telling(s, updates) && (op.PushItemsBack? || op.PushGapBack?) && KeepsDistinct(s.chunks, op)
    ensures var o := Step(CAPACITY, s, op);
            && Telling(o.state, updates + o.updates)
            && Meaning(Initialized(s).chunks, op) == Some(Contents(o.state.chunks))
            && Contents(Initialized(s).chunks) == Contents(s.chunks)
  {
    hide Leads, Linked, KeepsDistinct, Contents, StepInitialized;
    var o := Step(CAPACITY, s, op);
    assert [] + s.chunks == s.chunks && [] + o.state.chunks == o.state.chunks;
    StepTold([], s, CAPACITY, op, true);
    LeadsConcat([], updates, s.chunks, o.updates, o.state.chunks, true);
    PushReplacesNothing(CAPACITY, s, op);
    StepMeansIt(CAPACITY, s, op);
  }

  lemma MayPush(s: State, events: seq<Event>, k: nat)
    requires BLOCK * k <= |events| && DistinctEvents(events) && Contents(s.chunks) == Written(events, k)
    ensures KeepsDistinct(s.chunks, PushItemsBack(Block(events, k)))
  {
    hide Written, Contents, Block, DistinctEvents, DisjointEvents, EventsOf, Flat;
    WrittenEvents(events, k);
    EventsAreFlat(s.chunks);
    BlockIsNext(events, k);
    DistinctConcat(events[..BLOCK * k], Block(events, k));
  }

  lemma BlockIsNext(events: seq<Event>, k: nat)
    requires BLOCK * k <= |events| && DistinctEvents(events)
    ensures DistinctEvents(events[..BLOCK * k] + Block(events, k))
  {
    var n := Min(BLOCK * k + BLOCK, |events|);
    assert events[..BLOCK * k] + Block(events, k) == events[..n];
  }

  lemma MayPushGap(s: State, events: seq<Event>, k: nat, gap: string)
    requires BLOCK * k <= |events| && DistinctEvents(events)
             && Contents(s.chunks) == Written(events, k) + Entries(Block(events, k))
    ensures KeepsDistinct(s.chunks, PushGapBack(gap))
  {
    hide Written, Contents, Entries, EventsOf, Block, DistinctEvents, Flat;
    WrittenEvents(events, k);
    EventsAreFlat(s.chunks);
    EventsOfConcat(Written(events, k), Entries(Block(events, k)));
    EventsOfEntries(Block(events, k));
    BlockIsNext(events, k);
  }

  /** Run the script on a new linked chunk. */
  method Write(events: seq<Event>) returns (s: State, updates: seq<Update>)
    requires DistinctEvents(events)
    ensures Telling(s, updates) && Contents(s.chunks) == Written(events, Blocks(events))
            && (events == [] <==> s.chunks == [])
  {
    hide Contents, Written, GapName, Telling, KeepsDistinct, Step, Block;
    s, updates := Fresh, [];
    assert Telling(s, updates) && Contents(s.chunks) == Written(events, 0) by { NothingWritten(events); }
    var k := 0;
    while BLOCK * k < |events|
      invariant k == 0 || BLOCK * (k - 1) < |events|
      invariant Telling(s, updates) && Contents(s.chunks) == Written(events, k) && (k == 0 <==> s.chunks == [])
      decreases |events| - BLOCK * k
    {
      var push, gap := PushItemsBack(Block(events, k)), PushGapBack(GapName(k));
      MayPush(s, events, k);
      PushTells(s, updates, push);
      var o := Step(CAPACITY, s, push);
      s, updates := o.state, updates + o.updates;
      MayPushGap(s, events, k, GapName(k));
      PushTells(s, updates, gap);
      o := Step(CAPACITY, s, gap);
      s, updates := o.state, updates + o.updates;
      assert Contents(s.chunks) == Written(events, k + 1) by { WrittenMore(events, k); }
      assert s.chunks != [] by { HoleShows(s.chunks, Written(events, k) + Entries(Block(events, k)), GapName(k)); }
      k := k + 1;
    }
    assert k == Blocks(events);
  }

  lemma NothingWritten(events: seq<Event>)
    ensures Telling(Fresh, []) && Contents(Fresh.chunks) == Written(events, 0)
  {
  }

  lemma WrittenMore(events: seq<Event>, k: nat)
    requires BLOCK * k <= |events|
    ensures Written(events, k + 1) == Written(events, k) + Entries(Block(events, k)) + [Hole(GapName(k))]
  {
  }

  lemma HoleShows(cs: seq<Chunk>, before: seq<Entry>, gap: string)
    requires Contents(cs) == before + [Hole(gap)]
    ensures cs != []
  {
  }

  /** The reading benchmark, from generating events to having loaded them all: `None` where
      it panics, because an empty store has no last chunk. */
  method WriteThenRead(st: Store, lc: string, events: seq<Event>) returns (written: State, loaded: Option<State>)
    requires DistinctEvents(events) && Holds(st, lc, [])
    ensures loaded.None? <==> events == []
    ensures loaded.Some? ==> loaded.value.chunks == written.chunks && loaded.value.lazyPrevious.None?
    ensures Contents(written.chunks) == Written(events, Blocks(events)) && Flat(written.chunks) == events
  {
    hide Contents, Written, Holds, Leads, NoForeignGap, Linked, ApplyUpdates;
    var updates;
    written, updates := Write(events);
    WrittenEvents(events, Blocks(events));
    EventsAreFlat(written.chunks);
    assert events[..Min(BLOCK * Blocks(events), |events|)] == events;
    assert NoForeignGaps(st, lc, updates) by { NoReplacement(st, lc, updates); }
    UpdatesKept(st, lc, [], updates, written.chunks);
    assert WithinCapacity(written.chunks, CAPACITY) by { LinkedFits(written); }
    var stored := ApplyUpdates(st, lc, updates).store;
    loaded := LoadEverything(stored, lc, CAPACITY, written.chunks);
  }

  lemma NoReplacement(st: Store, lc: string, updates: seq<Update>)
    requires forall u | u in updates :: !u.ReplaceItem?
    ensures NoForeignGaps(st, lc, updates)
  {
  }

  lemma LinkedFits(s: State)
    requires Linked([], s, CAPACITY)
    ensures WithinCapacity(s.chunks, CAPACITY)
  {
  }

  // --- Persisting any chunks ---------------------------------------------------------------------

  function ChunkUpdates(previous: Option<nat>, c: Chunk): seq<Update> {
    [NewUpdate(previous, c, None)] + if c.content.Items? then [PushItems(Position(c.id, 0), c.content.items)] else []
  }

  /** New chunks, each linked to its predecessor, with their items pushed. */
  function ScriptUpdates(cs: seq<Chunk>): seq<Update> {
    if cs == [] then []
    else
      var front := cs[..|cs| - 1];
      ScriptUpdates(front) + ChunkUpdates(IdAt(front, |front| - 1), cs[|cs| - 1])
  }

  /** A chunk that is linked after the last one. */
  lemma LinkedLast(front: seq<Chunk>, c: Chunk)
    requires DistinctIds(front + [c])
    ensures ApplyNew(front, IdAt(front, |front| - 1), c, None) == Some(front + [c])
  {
    hide IndexOf;
    var all := front + [c];
    assert all[|front|] == c;
    assert forall i | 0 <= i < |front| :: all[i] == front[i];
    IndexOfAbsent(front, c.id);
    if front != [] { IndexOfAt(front, |front| - 1); }
    assert front[..|front|] + [c] + front[|front|..] == all;
  }

  lemma {:induction false} GapLeads(front: seq<Chunk>, c: Chunk)
    requires DistinctIds(front + [c]) && c.content.Gap?
    ensures Leads(front, ChunkUpdates(IdAt(front, |front| - 1), c), front + [c], true)
  {
    hide Leads, ApplyNew, DistinctIds;
    LinkedLast(front, c);
    var u := NewUpdate(IdAt(front, |front| - 1), c, None);
    assert c == Chunk(c.id, Gap(c.content.token));
    assert Apply(front, u) == Some(front + [c]);
    assert ChunkUpdates(IdAt(front, |front| - 1), c) == [u];
    LeadsOne(front, NewUpdate(IdAt(front, |front| - 1), c, None), front + [c], true);
  }

  lemma {:induction false} ItemsLead(front: seq<Chunk>, c: Chunk)
    requires DistinctIds(front + [c]) && c.content.Items?
    requires DistinctEvents(c.content.items) && DisjointEvents(Flat(front), c.content.items)
    ensures Leads(front, ChunkUpdates(IdAt(front, |front| - 1), c), front + [c], true)
  {
    hide Leads, ApplyNew, DistinctIds, DistinctEvents, DisjointEvents, Flat;
    var previous, items, e := IdAt(front, |front| - 1), c.content.items, Chunk(c.id, Items([]));
    assert front + [c] + [] == front + [c] && front + [e] + [] == front + [e];
    SameIds(front, c, e, []);
    LinkedLast(front, e);
    LeadsOne(front, NewUpdate(previous, c, None), front + [e], true);
    FlatConcat(front, [e]);
    FlatOne(e);
    assert Flat(front) + [] == Flat(front);
    assert WithItems(e, [] + items) == c;
    PushedLeads(front, e, [], items, true);
    LeadsConcat(front, [NewUpdate(previous, c, None)], front + [e], [PushItems(Position(c.id, 0), items)], front + [c],
                true);
  }

  lemma {:induction false} ChunkLeads(front: seq<Chunk>, c: Chunk)
    requires DistinctIds(front + [c]) && DistinctEvents(Flat(front + [c]))
    ensures Leads(front, ChunkUpdates(IdAt(front, |front| - 1), c), front + [c], true)
  {
    hide Leads, DistinctIds, DistinctEvents, DisjointEvents, Flat;
    if c.content.Gap? {
      GapLeads(front, c);
    } else {
      FlatConcat(front, [c]);
      FlatOne(c);
      DistinctConcat(Flat(front), c.content.items);
      ItemsLead(front, c);
    }
  }

  lemma {:induction false} ScriptLeads(cs: seq<Chunk>)
    requires DistinctIds(cs) && DistinctEvents(Flat(cs))
    ensures Leads([], ScriptUpdates(cs), cs, true)
  {
    hide Leads, ChunkUpdates;
    if cs == [] {
      assert Leads([], [], [], true) by { Stays(); }
    } else {
      var front, c := cs[..|cs| - 1], cs[|cs| - 1];
      assert cs == front + [c];
      FlatConcat(front, [c]);
      DistinctConcat(Flat(front), Flat([c]));
      ScriptLeads(front);
      ChunkLeads(front, c);
      LeadsConcat([], ScriptUpdates(front), front, ChunkUpdates(IdAt(front, |front| - 1), c), cs, true);
    }
  }

  lemma Stays()
    ensures Leads([], [], [], true)
  {
  }

  lemma {:induction false} ScriptReplacesNothing(cs: seq<Chunk>)
    ensures forall u | u in ScriptUpdates(cs) :: !u.ReplaceItem?
  {
    if cs != [] { ScriptReplacesNothing(cs[..|cs| - 1]); }
  }

  /** Whatever chunks are persisted that way are loaded again, exactly; unless there are
      none, or one has too many items. */
  method PersistThenLoad(st: Store, lc: string, cap: nat, cs: seq<Chunk>) returns (loaded: Option<State>)
    requires Holds(st, lc, []) && DistinctIds(cs) && DistinctEvents(Flat(cs))
    ensures loaded.None? <==> cs == [] || !WithinCapacity(cs, cap)
    ensures loaded.Some? ==> loaded.value.chunks == cs && loaded.value.lazyPrevious.None?
  {
    hide Holds, Leads, ApplyUpdates, ScriptUpdates, NoForeignGap;
    var updates := ScriptUpdates(cs);
    ScriptLeads(cs);
    ScriptReplacesNothing(cs);
    assert NoForeignGaps(st, lc, updates) by { NoReplacement(st, lc, updates); }
    UpdatesKept(st, lc, [], updates, cs);
    loaded := LoadEverything(ApplyUpdates(st, lc, updates).store, lc, cap, cs);
  }

  /** The chunks of the latest event benchmark: reactions, and one message at the end of
      one of them. */
  function Numbered(reactions: seq<seq<Event>>, candidate: Event, at: nat): (r: seq<Chunk>)
    ensures |r| == |reactions|
  {
    seq(|reactions|,
        i requires 0 <= i < |reactions| => Chunk(i, Items(reactions[i] + if i == at then [candidate] else [])))
  }

  /** The loop that builds the updates of that benchmark builds such a script. */
  method BuildUpdates(reactions: seq<seq<Event>>, candidate: Event, at: nat) returns (updates: seq<Update>)
    ensures updates == ScriptUpdates(Numbered(reactions, candidate, at))
            && DistinctIds(Numbered(reactions, candidate, at))
  {
    updates := [];
    ghost var cs := Numbered(reactions, candidate, at);
    var chunk := 0;
    while chunk < |reactions|
      invariant 0 <= chunk <= |reactions| && updates == ScriptUpdates(cs[..chunk])
    {
      var events := reactions[chunk];
      if chunk == at {
        events := events + [candidate];
      }
      var previous := if chunk == 0 then None else Some(chunk - 1);
      assert cs[..chunk + 1][..chunk] == cs[..chunk];
      assert reactions[chunk] + [] == reactions[chunk];
      assert cs[chunk] == Chunk(chunk, Items(events)) && IdAt(cs[..chunk], chunk - 1) == previous;
      updates := updates + [NewItemsChunk(previous, chunk, None)];
      updates := updates + [PushItems(Position(chunk, 0), events)];
      assert ChunkUpdates(previous, cs[chunk]) ==
             [NewItemsChunk(previous, chunk, None)] + [PushItems(Position(chunk, 0), events)];
      chunk := chunk + 1;
    }
    assert cs[..chunk] == cs;
  }
}
