/** The chunk rows of the store follow the chunks: linking and unlinking a chunk. */
module RelationalLinks {
  import opened LinkedChunkModel
  import opened Wrappers
  import opened Tables
  import opened Relational

  // --- Links of a list -----------------------------------------------------------

  lemma IndexAfterNew(l: seq<Chunk>, c: Chunk, r: seq<Chunk>, id: nat)
    requires DistinctIds(l + [c] + r) && id != c.id
    ensures DistinctIds(l + r)
    ensures IndexOf(l + [c] + r, id) == var i := IndexOf(l + r, id); if i < |l| then i else i + 1
  {
    var cs, cs' := l + r, l + [c] + r;
    forall i, j | 0 <= i < j < |cs| ensures cs[i].id != cs[j].id {
      var i', j' := if i < |l| then i else i + 1, if j < |l| then j else j + 1;
      assert cs[i] == cs'[i'] && cs[j] == cs'[j'];
    }
    var i := IndexOf(cs, id);
    if i < |cs| {
      var i' := if i < |l| then i else i + 1;
      assert cs'[i'] == cs[i];
      IndexOfAt(cs', i');
    } else {
      forall j | 0 <= j < |cs'| ensures cs'[j].id != id {
        if j < |l| { assert cs'[j] == cs[j]; } else if j > |l| { assert cs'[j] == cs[j - 1]; }
      }
      IndexOfAbsent(cs', id);
    }
  }

  /** The links around chunk `c` once it sits between `l` and `r`. */
  function LinksWith(l: seq<Chunk>, c: Chunk, r: seq<Chunk>, id: nat): Option<Links> {
    var was := LinksOf(l + r, id);
    if id == c.id then Some(Links(IdAt(l, |l| - 1), IdAt(r, 0)))
    else if was.None? then None
    else if IdAt(l, |l| - 1) == Some(id) then Some(Links(was.value.previous, Some(c.id)))
    else if IdAt(r, 0) == Some(id) then Some(Links(Some(c.id), was.value.next))
    else was
  }

  lemma LinksAfterNew(l: seq<Chunk>, c: Chunk, r: seq<Chunk>, id: nat)
    requires DistinctIds(l + [c] + r)
    ensures LinksOf(l + [c] + r, id) == LinksWith(l, c, r, id)
  {
    hide IndexOf;
    if id == c.id {
      IndexOfAround(l, c, r);
      IdAfterNew(l, c, r, |l| - 1);
      IdAfterNew(l, c, r, |l| + 1);
      assert IdAt(l + r, |l| - 1) == IdAt(l, |l| - 1) && IdAt(l + r, |l|) == IdAt(r, 0);
    } else {
      IndexAfterNew(l, c, r, id);
      OtherLinksAfterNew(l, c, r, id);
    }
  }

  lemma IdAfterNew(l: seq<Chunk>, c: Chunk, r: seq<Chunk>, j: int)
    ensures IdAt(l + [c] + r, j) == if j < |l| then IdAt(l + r, j) else if j == |l| then Some(c.id)
            else IdAt(l + r, j - 1)
  {
    var cs, cs' := l + r, l + [c] + r;
    if 0 <= j < |l| {
      assert cs'[j] == cs[j];
    } else if j == |l| {
      assert cs'[j] == c;
    } else if |l| < j < |cs'| {
      assert cs'[j] == cs[j - 1];
    }
  }

  lemma OtherLinksAfterNew(l: seq<Chunk>, c: Chunk, r: seq<Chunk>, id: nat)
    requires DistinctIds(l + [c] + r) && DistinctIds(l + r) && id != c.id
    requires IndexOf(l + [c] + r, id) == var i := IndexOf(l + r, id); if i < |l| then i else i + 1
    ensures LinksOf(l + [c] + r, id) == LinksWith(l, c, r, id)
  {
    var cs := l + r;
    var i := IndexOf(cs, id);
    if i < |cs| {
      hide IndexOf, DistinctIds;
      var i' := if i < |l| then i else i + 1;
      IdAfterNew(l, c, r, i' - 1);
      IdAfterNew(l, c, r, i' + 1);
      assert IdAt(l, |l| - 1) == Some(id) <==> i == |l| - 1 by { EndOf(l, r, id); }
      assert IdAt(r, 0) == Some(id) <==> i == |l| by { EndOf(l, r, id); }
    }
  }

  lemma EndOf(l: seq<Chunk>, r: seq<Chunk>, id: nat)
    requires DistinctIds(l + r) && IndexOf(l + r, id) < |l + r|
    ensures IdAt(l, |l| - 1) == Some(id) <==> IndexOf(l + r, id) == |l| - 1
    ensures IdAt(r, 0) == Some(id) <==> IndexOf(l + r, id) == |l|
  {
    if l != [] { assert (l + r)[|l| - 1] == l[|l| - 1]; IndexOfAt(l + r, |l| - 1); }
    if r != [] { assert (l + r)[|l|] == r[0]; IndexOfAt(l + r, |l|); }
  }

  // --- Setting one link ------------------------------------------------------------

  lemma SetNextGets(rows: ChunkRows, lc: string, id: nat, next: Option<nat>)
    requires Unique(rows, lc) && Get(rows, lc, id).Some?
    ensures var r := SetNext(rows, lc, id, next);
            r.Some? && Unique(r.value, lc)
            && forall x: nat ::
                Get(r.value, lc, x) == if x == id then Some(Links(Get(rows, lc, id).value.previous, next))
                                       else Get(rows, lc, x)
  {
    var k := Find(rows, lc, id);
    var v := Links(rows[k].value.previous, next);
    UniqueSet(rows, k, v, lc);
    forall x: nat ensures Get(rows[k := rows[k].(value := v)], lc, x) == if x == id then Some(v) else Get(rows, lc, x) {
      GetSet(rows, k, v, lc, x);
    }
  }

  lemma SetPreviousGets(rows: ChunkRows, lc: string, id: nat, previous: Option<nat>)
    requires Unique(rows, lc) && Get(rows, lc, id).Some?
    ensures var r := SetPrevious(rows, lc, id, previous);
            r.Some? && Unique(r.value, lc)
            && forall x: nat ::
                Get(r.value, lc, x) == if x == id then Some(Links(previous, Get(rows, lc, id).value.next))
                                       else Get(rows, lc, x)
  {
    var k := Find(rows, lc, id);
    var v := Links(previous, rows[k].value.next);
    UniqueSet(rows, k, v, lc);
    forall x: nat ensures Get(rows[k := rows[k].(value := v)], lc, x) == if x == id then Some(v) else Get(rows, lc, x) {
      GetSet(rows, k, v, lc, x);
    }
  }

  // --- Linking a chunk -------------------------------------------------------------

  lemma Neighbours(l: seq<Chunk>, r: seq<Chunk>)
    requires DistinctIds(l + r)
    ensures l != [] ==> LinksOf(l + r, l[|l| - 1].id).Some?
    ensures r != [] ==> LinksOf(l + r, r[0].id).Some?
    ensures l != [] && r != [] ==> l[|l| - 1].id != r[0].id
  {
    if l != [] { assert (l + r)[|l| - 1] == l[|l| - 1]; IndexOfAt(l + r, |l| - 1); }
    if r != [] { assert (l + r)[|l|] == r[0]; IndexOfAt(l + r, |l|); }
  }

  lemma InsertChunkLinks(rows: ChunkRows, lc: string, l: seq<Chunk>, c: Chunk, r: seq<Chunk>)
    requires LinksOk(rows, lc, l + r) && DistinctIds(l + r) && DistinctIds(l + [c] + r)
    ensures var ins := InsertChunk(rows, lc, IdAt(l, |l| - 1), c.id, IdAt(r, 0));
            ins.error.None? && LinksOk(ins.rows, lc, l + [c] + r)
  {
    hide SetNext, SetPrevious, Find, Get, Unique;
    Neighbours(l, r);
    var before, after := IdAt(l, |l| - 1), IdAt(r, 0);
    if before.Some? { SetNextGets(rows, lc, before.value, Some(c.id)); }
    var r1 := if before.None? then Some(rows) else SetNext(rows, lc, before.value, Some(c.id));
    if after.Some? { SetPreviousGets(r1.value, lc, after.value, Some(c.id)); }
    var r2 := if after.None? then r1 else SetPrevious(r1.value, lc, after.value, Some(c.id));
    var row := Row(lc, c.id, Links(before, after));
    assert Get(r2.value, lc, c.id).None? by { NotThere(l, c, r); }
    UniquePush(r2.value, row, lc);
    forall id: nat ensures Get(r2.value + [row], lc, id) == LinksOf(l + [c] + r, id) {
      GetPush(r2.value, row, lc, id);
      LinksAfterNew(l, c, r, id);
    }
  }

  lemma NotThere(l: seq<Chunk>, c: Chunk, r: seq<Chunk>)
    requires DistinctIds(l + [c] + r)
    ensures IndexOf(l + r, c.id) == |l + r|
    ensures IdAt(l, |l| - 1) != Some(c.id) && IdAt(r, 0) != Some(c.id)
  {
    var cs, cs' := l + r, l + [c] + r;
    assert cs'[|l|] == c;
    forall j | 0 <= j < |cs| ensures cs[j].id != c.id {
      assert cs[j] == cs'[if j < |l| then j else j + 1];
    }
    IndexOfAbsent(cs, c.id);
    if l != [] { assert cs[|l| - 1] == l[|l| - 1]; }
    if r != [] { assert cs[|l|] == r[0]; }
  }

  // --- Unlinking a chunk -----------------------------------------------------------

  lemma RemoveChunkLinks(rows: ChunkRows, lc: string, l: seq<Chunk>, c: Chunk, r: seq<Chunk>)
    requires LinksOk(rows, lc, l + [c] + r) && DistinctIds(l + r) && DistinctIds(l + [c] + r)
    ensures var rm := RemoveChunkRow(rows, lc, c.id);
            rm.Some? && LinksOk(rm.value, lc, l + r)
  {
    hide SetNext, SetPrevious, Unique;
    var before, after := IdAt(l, |l| - 1), IdAt(r, 0);
    LinksAfterNew(l, c, r, c.id);
    var k := Find(rows, lc, c.id);
    assert k < |rows| && rows[k].value == Links(before, after);
    hide Find, Get;
    var r0 := RemoveRow(rows, k);
    UniqueRemove(rows, k, lc);
    forall id: nat ensures Get(r0, lc, id) == if id == c.id then None else LinksWith(l, c, r, id) {
      GetRemove(rows, k, lc, id);
      LinksAfterNew(l, c, r, id);
    }
    Neighbours(l, r);
    NotThere(l, c, r);
    if before.Some? { SetNextGets(r0, lc, before.value, after); }
    var r1 := if before.None? then Some(r0) else SetNext(r0, lc, before.value, after);
    if after.Some? { SetPreviousGets(r1.value, lc, after.value, before); }
    var r2 := if after.None? then r1 else SetPrevious(r1.value, lc, after.value, before);
    forall id: nat ensures Get(r2.value, lc, id) == LinksOf(l + r, id) {
      RestoredLinks(l, r, id);
    }
  }

  /** The ends of `l` and `r` are each other's neighbours. */
  lemma RestoredLinks(l: seq<Chunk>, r: seq<Chunk>, id: nat)
    requires DistinctIds(l + r)
    ensures IdAt(l, |l| - 1) == Some(id) ==> LinksOf(l + r, id).Some? && LinksOf(l + r, id).value.next == IdAt(r, 0)
    ensures IdAt(r, 0) == Some(id) ==> LinksOf(l + r, id).Some? && LinksOf(l + r, id).value.previous == IdAt(l, |l| - 1)
  {
    var cs := l + r;
    if l != [] { assert cs[|l| - 1] == l[|l| - 1]; IndexOfAt(cs, |l| - 1); }
    if r != [] { assert cs[|l|] == r[0]; IndexOfAt(cs, |l|); }
  }
}
