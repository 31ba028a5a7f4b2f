/** The relational store as it is written: tables that are scanned and changed in place. */
module RelationalStore {
  import opened LinkedChunkModel
  import opened Wrappers
  import opened Tables
  import opened Relational

  datatype Reply = Success | Error(error: Error) | Panic

  /** The store and the reply are those of `o`; after a panic the store is of no interest. */
  ghost predicate Matches(o: Outcome, reply: Reply, st: Store) {
    match o
    case Applied(st') => reply.Success? && st == st'
    case Failed(error, st') => reply == Reply.Error(error) && st == st'
    case Panicked => reply.Panic?
  }

  class RelationalLinkedChunk {
    var chunks: ChunkRows
    var rows: ItemRows
    var positions: set<(string, Position)>
    var items: ItemTable

    constructor ()
      ensures Value() == Empty
    {
      chunks, rows, positions, items := [], [], {}, map[];
    }

    ghost function Value(): Store
      reads this
    {
      Store(chunks, rows, positions, items)
    }

    method ApplyUpdates(lc: string, updates: seq<Update>) returns (reply: Reply)
      modifies this
      ensures Matches(Relational.ApplyUpdates(old(Value()), lc, updates), reply, Value())
    {
      hide ApplyUpdate;
      var i := 0;
      while i < |updates|
        invariant 0 <= i <= |updates|
        invariant Relational.ApplyUpdates(old(Value()), lc, updates) ==
                  Relational.ApplyUpdates(Value(), lc, updates[i..])
      {
        ghost var before := Value();
        reply := ApplyOne(lc, updates[i]);
        assert updates[i..][0] == updates[i] && updates[i..][1..] == updates[i + 1..];
        assert Relational.ApplyUpdates(before, lc, updates[i..]) ==
               match ApplyUpdate(before, lc, updates[i]) {
                 case Applied(st') => Relational.ApplyUpdates(st', lc, updates[i + 1..])
                 case failed => failed
               };
        if !reply.Success? { return; }
        i := i + 1;
      }
      reply := Success;
    }

    method ApplyOne(lc: string, u: Update) returns (reply: Reply)
      modifies this
      ensures Matches(ApplyUpdate(old(Value()), lc, u), reply, Value())
    {
      hide PushAll, Relational.Replace, Remove;
      match u {
        case NewItemsChunk(previous, new_, next) =>
          reply := InsertChunk(lc, previous, new_, next);
        case NewGapChunk(previous, new_, next, gap) =>
          reply := InsertChunk(lc, previous, new_, next);
          if reply.Success? {
            rows := rows + [Row(lc, Position(new_, 0), GapCell(gap))];
          }
        case RemoveChunk(id) =>
          var chunks' := RemoveChunkRow(chunks, lc, id);
          if chunks'.None? { return Panic; }
          chunks := chunks'.value;
          ghost var before := rows;
          var gone := DropRows((r: Row<Position, Cell>) => !(r.lc == lc && r.key.chunk == id));
          assert rows == Keep(before, (r: Row<Position, Cell>) => !(r.lc == lc && r.key.chunk == id));
          reply := Success;
        case PushItems(at, its) =>
          reply := this.PushItems(lc, at, its);
        case ReplaceItem(at, item) =>
          reply := this.ReplaceItem(lc, at, item);
        case RemoveItem(at) =>
          reply := this.RemoveItem(lc, at);
        case DetachLastItems(at) =>
          this.DetachLastItems(lc, at);
          reply := Success;
        case StartReattachItems =>
          reply := Success;
        case EndReattachItems =>
          reply := Success;
        case Clear =>
          chunks := Keep(chunks, (r: Row<nat, Links>) => r.lc != lc);
          rows := Keep(rows, (r: Row<Position, Cell>) => r.lc != lc);
          positions := set x | x in positions && x.0 != lc;
          if lc in items {
            items := items[lc := map id | id in items[lc] :: ClearStored(items[lc][id])];
          }
          reply := Success;
      }
    }

    method InsertChunk(lc: string, previous: Option<nat>, new_: nat, next: Option<nat>) returns (reply: Reply)
      modifies this
      ensures Matches(NewChunk(old(Value()), lc, previous, new_, next), reply, Value())
    {
      if previous.Some? {
        var linked := SetNext(chunks, lc, previous.value, Some(new_));
        if linked.None? { return Reply.Error(InvalidChunkIdentifier(previous.value)); }
        chunks := linked.value;
      }
      if next.Some? {
        var linked := SetPrevious(chunks, lc, next.value, Some(new_));
        if linked.None? { return Reply.Error(InvalidChunkIdentifier(next.value)); }
        chunks := linked.value;
      }
      chunks := chunks + [Row(lc, new_, Links(previous, next))];
      reply := Success;
    }

    method PushItems(lc: string, start: Position, its: seq<Event>) returns (reply: Reply)
      modifies this
      ensures Matches(PushAll(old(Value()), lc, start, its), reply, Value())
    {
      var at, i := start, 0;
      assert its[0..] == its;
      while i < |its|
        invariant 0 <= i <= |its|
        invariant PushAll(old(Value()), lc, start, its) == PushAll(Value(), lc, at, its[i..])
      {
        ghost var before := Value();
        var item := its[i];
        assert its[i..][0] == item && its[i..][1..] == its[i + 1..];
        var known := KnownItems(items, lc);
        items := items[lc := known];
        if item.id in known && known[item.id].position.Some? {
          assert PushItem(before, lc, at, item) == Failed(ItemAlreadyInLinkedChunk, Value());
          return Reply.Error(ItemAlreadyInLinkedChunk);
        }
        if (lc, at) in positions {
          assert PushItem(before, lc, at, item) == Failed(PositionAlreadyOccupied, Value());
          return Reply.Error(PositionAlreadyOccupied);
        }
        positions := positions + {(lc, at)};
        var known' := known[item.id := Stored(item, Some(at))];
        assert before.items[lc := known][lc := known'] == before.items[lc := known'];
        items := items[lc := known'];
        rows := rows + [Row(lc, at, ItemCell(item.id))];
        items := Refresh(items, item);
        assert PushItem(before, lc, at, item) == Applied(Value());
        at := Position(at.chunk, at.index + 1);
        i := i + 1;
      }
      reply := Success;
    }

    method ReplaceItem(lc: string, at: Position, item: Event) returns (reply: Reply)
      modifies this
      ensures Matches(Relational.Replace(old(Value()), lc, at, item), reply, Value())
    {
      var k := FindAny(rows, at);
      if k == |rows| { return Panic; }
      if rows[k].value.GapCell? { return Panic; }
      items := items[lc := KnownItems(items, lc)[item.id := Stored(item, Some(at))]];
      rows := rows[k := rows[k].(value := ItemCell(item.id))];
      items := Refresh(items, item);
      reply := Success;
    }

    /** One pass finds the row, the largest index of its chunk, and moves up the items
        behind it. A second row at the position is a panic, of debug builds. */
    method ScanRows(lc: string, at: Position) returns (entry: Option<nat>, largest: Option<nat>, panicked: bool)
      modifies this`rows
      ensures if panicked then HasTwo(old(rows), lc, at)
              else Scanned(old(rows), |old(rows)|, lc, at, Scan(rows, entry, largest))
    {
      hide Scanned, HasTwo;
      ghost var was := rows;
      entry, largest, panicked := None, None, false;
      var n := 0;
      NothingScanned(was, lc, at);
      while n < |rows|
        invariant 0 <= n <= |rows| == |was| && !panicked
        invariant Scanned(was, n, lc, at, Scan(rows, entry, largest))
      {
        ghost var before := Scan(rows, entry, largest);
        var r := rows[n];
        OneScanned(was, n, lc, at, before);
        if r.lc == lc {
          if r.key.chunk == at.chunk && (largest.None? || largest.value < r.key.index) {
            largest := Some(r.key.index);
          }
          if r.key == at {
            if entry.Some? {
              panicked := true;
              return;
            }
            entry := Some(n);
          }
          if r.key.chunk == at.chunk && r.key.index > at.index {
            rows := rows[n := r.(key := Position(at.chunk, r.key.index - 1))];
          }
        }
        assert Scan(rows, entry, largest) == NextScan(before, n, lc, at);
        n := n + 1;
      }
    }

    method RemoveItem(lc: string, at: Position) returns (reply: Reply)
      modifies this
      ensures Matches(Remove(old(Value()), lc, at), reply, Value())
    {
      hide MaxIndex, ShiftRows, Find, RemoveRow;
      ghost var was := rows;
      var entry, largest, panicked := ScanRows(lc, at);
      if panicked { return Panic; }
      WholeScan(was, lc, at, Scan(rows, entry, largest));
      if entry.None? || largest.None? { return Panic; }
      rows := RemoveRow(rows, entry.value);
      positions := positions - {(lc, Position(at.chunk, largest.value))};
      if lc in items {
        items := items[lc := map id | id in items[lc] :: ShiftStored(items[lc][id], at)];
      }
      reply := Success;
    }

    method DetachLastItems(lc: string, at: Position)
      modifies this
      ensures Value() == Detach(old(Value()), lc, at)
    {
      ghost var was := rows;
      var gone := DropRows((r: Row<Position, Cell>) => !(r.lc == lc && IsDetached(r.key, at)));
      var free := set r | r in gone :: (lc, r.key);
      assert free == set r | r in was && r.lc == lc && IsDetached(r.key, at) :: (lc, r.key);
      positions := positions - free;
      if lc in items {
        items := items[lc := map id | id in items[lc] :: DetachStored(items[lc][id], at)];
      }
    }

    /** Rows are removed from the last to the first, so that the indices found before stay
        right. */
    method DropRows(keep: Row<Position, Cell> -> bool) returns (gone: seq<Row<Position, Cell>>)
      modifies this`rows
      ensures rows == Keep(old(rows), keep)
      ensures forall r :: r in gone <==> r in old(rows) && !keep(r)
    {
      hide Keep;
      ghost var was := rows;
      gone := [];
      var n := |rows|;
      KeepNone(keep);
      assert was[n..] == [] && was[..n] == was;
      while n > 0
        invariant 0 <= n <= |was| && rows == was[..n] + Keep(was[n..], keep)
        invariant forall r :: r in gone <==> r in was[n..] && !keep(r)
      {
        n := n - 1;
        assert was[n..] == [was[n]] + was[n + 1..];
        KeepMore(was, n, keep);
        if !keep(rows[n]) {
          gone := gone + [rows[n]];
          rows := RemoveRow(rows, n);
        }
        assert rows == was[..n] + Keep(was[n..], keep);
      }
      assert was[0..] == was;
    }
  }

  // --- About the loops -------------------------------------------------------------------

  lemma KeepNone(keep: Row<Position, Cell> -> bool)
    ensures Keep([], keep) == []
  {
  }

  lemma KeepMore(was: ItemRows, n: nat, keep: Row<Position, Cell> -> bool)
    requires n < |was|
    ensures Keep(was[n..], keep) == (if keep(was[n]) then [was[n]] else []) + Keep(was[n + 1..], keep)
  {
    assert was[n..][0] == was[n] && was[n..][1..] == was[n + 1..];
  }

  ghost predicate IsRow(r: Row<Position, Cell>, lc: string, at: Position) {
    r.lc == lc && r.key == at
  }

  /** The row looked for among the first `n`. */
  ghost predicate IsEntry(rows: ItemRows, n: nat, lc: string, at: Position, entry: Option<nat>)
    requires n <= |rows|
  {
    match entry
    case None => forall i | 0 <= i < n :: !IsRow(rows[i], lc, at)
    case Some(k) => k < n && IsRow(rows[k], lc, at) && forall i | 0 <= i < n && i != k :: !IsRow(rows[i], lc, at)
  }

  lemma EntryIs(rows: ItemRows, lc: string, at: Position, entry: Option<nat>)
    requires IsEntry(rows, |rows|, lc, at, entry)
    ensures Find(rows, lc, at) == if entry.None? then |rows| else entry.value
    ensures entry.Some? ==> Find(rows[entry.value + 1..], lc, at) == |rows| - entry.value - 1
  {
    if entry.Some? {
      var k := entry.value;
      var tail := rows[k + 1..];
      forall i | 0 <= i < |tail| && tail[i].lc == lc ensures tail[i].key != at {
        assert !IsRow(rows[k + 1 + i], lc, at);
      }
      FindNone(tail, lc, at);
      assert forall i | 0 <= i < k :: !IsRow(rows[i], lc, at);
    } else {
      forall i | 0 <= i < |rows| && rows[i].lc == lc ensures rows[i].key != at { assert !IsRow(rows[i], lc, at); }
      FindNone(rows, lc, at);
    }
  }

  lemma TwoEntries(rows: ItemRows, k: nat, n: nat, lc: string, at: Position)
    requires n < |rows| && IsRow(rows[n], lc, at) && IsEntry(rows, n, lc, at, Some(k))
    ensures HasTwo(rows, lc, at)
  {
    assert forall i | 0 <= i < k :: !IsRow(rows[i], lc, at);
    assert rows[k + 1..][n - k - 1] == rows[n];
  }

  /** What the pass has found, and the rows so far. */
  datatype Scan = Scan(rows: ItemRows, entry: Option<nat>, largest: Option<nat>)

  ghost predicate Scanned(was: ItemRows, n: nat, lc: string, at: Position, s: Scan) {
    && n <= |was| && s.rows == ShiftRows(was[..n], lc, at) + was[n..]
    && s.largest == MaxIndex(was[..n], lc, at.chunk)
    && IsEntry(was, n, lc, at, s.entry)
  }

  ghost predicate HasTwo(rows: ItemRows, lc: string, at: Position) {
    var k := Find(rows, lc, at);
    k < |rows| && Find(rows[k + 1..], lc, at) < |rows| - k - 1
  }

  function NextScan(s: Scan, n: nat, lc: string, at: Position): Scan
    requires n < |s.rows|
  {
    var r := s.rows[n];
    Scan(s.rows[n := ShiftRow(r, lc, at)], if r.lc == lc && r.key == at then Some(n) else s.entry,
         if r.lc == lc && r.key.chunk == at.chunk && (s.largest.None? || s.largest.value < r.key.index)
         then Some(r.key.index) else s.largest)
  }

  lemma NothingScanned(rows: ItemRows, lc: string, at: Position)
    ensures Scanned(rows, 0, lc, at, Scan(rows, None, None))
  {
    assert rows[..0] == [];
  }

  lemma OneScanned(was: ItemRows, n: nat, lc: string, at: Position, s: Scan)
    requires n < |was| && Scanned(was, n, lc, at, s)
    ensures |s.rows| == |was| && s.rows[n] == was[n]
    ensures if IsRow(was[n], lc, at) && s.entry.Some? then HasTwo(was, lc, at)
            else Scanned(was, n + 1, lc, at, NextScan(s, n, lc, at))
  {
    hide MaxIndex, ShiftRows, Find, IsEntry;
    ShiftMore(was, n, lc, at);
    assert |ShiftRows(was[..n], lc, at)| == n by { ShiftLength(was[..n], lc, at); }
    if IsRow(was[n], lc, at) && s.entry.Some? {
      TwoEntries(was, s.entry.value, n, lc, at);
    } else {
      MaxMore(was, n, lc, at.chunk);
      EntryMore(was, n, lc, at, s.entry);
      assert s.rows[n := ShiftRow(was[n], lc, at)] == ShiftRows(was[..n + 1], lc, at) + was[n + 1..];
    }
  }

  lemma {:induction false} WholeScan(was: ItemRows, lc: string, at: Position, s: Scan)
    requires Scanned(was, |was|, lc, at, s)
    ensures s.rows == ShiftRows(was, lc, at) && s.largest == MaxIndex(was, lc, at.chunk) && |s.rows| == |was|
    ensures Find(was, lc, at) == if s.entry.None? then |was| else s.entry.value
    ensures s.entry.Some? ==>
            s.entry.value < |was| && Find(was[s.entry.value + 1..], lc, at) == |was| - s.entry.value - 1
  {
    assert was[..|was|] == was;
    EntryIs(was, lc, at, s.entry);
  }

  lemma ShiftLength(rows: ItemRows, lc: string, at: Position)
    ensures |ShiftRows(rows, lc, at)| == |rows|
  {
  }

  lemma MaxMore(was: ItemRows, n: nat, lc: string, chunk: nat)
    requires n < |was|
    ensures var (r, m) := (was[n], MaxIndex(was[..n], lc, chunk));
            MaxIndex(was[..n + 1], lc, chunk)
            == if r.lc == lc && r.key.chunk == chunk && (m.None? || m.value < r.key.index) then Some(r.key.index) else m
  {
    assert was[..n + 1][..n] == was[..n];
  }

  lemma EntryMore(was: ItemRows, n: nat, lc: string, at: Position, entry: Option<nat>)
    requires n < |was| && IsEntry(was, n, lc, at, entry) && (IsRow(was[n], lc, at) ==> entry.None?)
    ensures IsEntry(was, n + 1, lc, at, if IsRow(was[n], lc, at) then Some(n) else entry)
  {
  }

  lemma ShiftMore(was: ItemRows, n: nat, lc: string, at: Position)
    requires n < |was|
    ensures ShiftRows(was[..n + 1], lc, at) == ShiftRows(was[..n], lc, at) + [ShiftRow(was[n], lc, at)]
  {
  }
}
