/** The setters of the client builder. Each consumes a shared pointer to a builder and
    gives a new one, moving the builder out if nobody else holds it and copying it
    otherwise. To callers they must look like updates of plain values. */
module ClientBuilder {
  import opened Wrappers

  datatype Homeserver = Url(url: string) | ServerName(name: string) | ServerNameOrUrl(text: string)
      | FromUserId(user: string)

  datatype Builder = Builder(homeserver: Option<Homeserver>, slidingSync: nat, dmRooms: nat, lockConfig: nat,
                             sessionDelegate: Option<nat>, memoryConstrained: bool)

  datatype Setter =
    | DmRoomDefinition(definition: nat)
    | CrossProcessLockConfig(config: nat)
    | SetSessionDelegate(delegate: nat)
    | SystemIsMemoryConstrained
    | HomeserverUrl(url: string)
    | ServerNameSetter(name: string)
    | ServerNameOrHomeserverUrl(text: string)
    | ServerNameFromUserId(user: string)
    | SlidingSyncVersionBuilder(version: nat)

  const Default: Builder := Builder(None, 0, 0, 0, None, false)

  function Apply(b: Builder, s: Setter): Builder {
    match s
    case DmRoomDefinition(definition) => b.(dmRooms := definition)
    case CrossProcessLockConfig(config) => b.(lockConfig := config)
    case SetSessionDelegate(delegate) => b.(sessionDelegate := Some(delegate))
    case SystemIsMemoryConstrained => b.(memoryConstrained := true)
    case HomeserverUrl(url) => b.(homeserver := Some(Url(url)))
    case ServerNameSetter(name) => b.(homeserver := Some(ServerName(name)))
    case ServerNameOrHomeserverUrl(text) => b.(homeserver := Some(ServerNameOrUrl(text)))
    case ServerNameFromUserId(user) => b.(homeserver := Some(FromUserId(user)))
    case SlidingSyncVersionBuilder(version) => b.(slidingSync := version)
  }

  // --- Plain values ----------------------------------------------------------------------

  type Name = nat

  datatype Op = New(as_: Name) | Share(of: Name, as_: Name) | Drop(of: Name) | Set(of: Name, setter: Setter, as_: Name)

  /** A name is given to one pointer at a time; a setter gives up the name it is called on. */
  predicate Possible<T>(held: map<Name, T>, op: Op) {
    match op
    case New(as_) => as_ !in held
    case Share(of, as_) => of in held && as_ !in held
    case Drop(of) => of in held
    case Set(of, _, as_) => of in held && (as_ == of || as_ !in held)
  }

  function DoPlain(held: map<Name, Builder>, op: Op): map<Name, Builder>
    requires Possible(held, op)
  {
    match op
    case New(as_) => held[as_ := Default]
    case Share(of, as_) => held[as_ := held[of]]
    case Drop(of) => held - {of}
    case Set(of, setter, as_) => (held - {of})[as_ := Apply(held[of], setter)]
  }

  // --- Shared pointers -------------------------------------------------------------------

  datatype Cell = Cell(builder: Builder, strong: nat)

  lemma RemoveOne(s: set<Name>, x: Name)
    requires x in s
    ensures |s - {x}| == |s| - 1
  {
  }

  lemma OnlyOne(s: set<Name>, x: Name, y: Name)
    requires x in s && y in s && |s| == 1
    ensures x == y
  {
    RemoveOne(s, x);
    assert y in s - {x} || x == y;
  }

  /** Who points to a cell. */
  ghost function HoldersOf(pointers: map<Name, nat>, a: nat): set<Name> {
    set n | n in pointers && pointers[n] == a
  }

  lemma HoldersMore(pointers: map<Name, nat>, as_: Name, a: nat, b: nat)
    requires as_ !in pointers
    ensures HoldersOf(pointers[as_ := a], b) == if b == a then HoldersOf(pointers, a) + {as_}
            else HoldersOf(pointers, b)
    ensures as_ !in HoldersOf(pointers, b)
  {
  }

  lemma HoldersLess(pointers: map<Name, nat>, of: Name, b: nat)
    requires of in pointers
    ensures HoldersOf(pointers - {of}, b) == if b == pointers[of] then HoldersOf(pointers, b) - {of}
            else HoldersOf(pointers, b)
    ensures of in HoldersOf(pointers, pointers[of])
  {
  }

  lemma Unheld(pointers: map<Name, nat>, a: nat)
    ensures HoldersOf(pointers, a) == {} <==> forall n | n in pointers :: pointers[n] != a
  {
    assert forall n | n in pointers && pointers[n] == a :: n in HoldersOf(pointers, a);
  }

  lemma NewHolder(pointers: map<Name, nat>, as_: Name, a: nat)
    requires as_ !in pointers && forall n | n in pointers :: pointers[n] != a
    ensures |HoldersOf(pointers[as_ := a], a)| == 1
    ensures forall b | b != a :: HoldersOf(pointers[as_ := a], b) == HoldersOf(pointers, b)
  {
    hide HoldersOf;
    Unheld(pointers, a);
    HoldersMore(pointers, as_, a, a);
    assert {} + {as_} == {as_};
    forall b | b != a ensures HoldersOf(pointers[as_ := a], b) == HoldersOf(pointers, b) {
      HoldersMore(pointers, as_, a, b);
    }
  }

  class Arcs {
    var cells: map<nat, Cell>
    var pointers: map<Name, nat>
    var next: nat

    ghost predicate Valid()
      reads this
    {
      && (forall n | n in pointers :: pointers[n] in cells)
      && (forall a | a in cells :: a < next && cells[a].strong == |HoldersOf(pointers, a)| > 0)
    }

    /** What every holder sees. */
    ghost function View(): map<Name, Builder>
      requires Valid()
      reads this
    {
      map n | n in pointers :: cells[pointers[n]].builder
    }

    constructor ()
      ensures Valid() && View() == map[]
    {
      cells, pointers, next := map[], map[], 0;
    }

    /** `Arc::new`. */
    method NewArc(b: Builder, as_: Name)
      requires Valid() && as_ !in View()
      modifies this
      ensures Valid() && View() == old(View())[as_ := b]
    {
      hide HoldersOf;
      NewHolder(pointers, as_, next);
      cells := cells[next := Cell(b, 1)];
      pointers := pointers[as_ := next];
      next := next + 1;
    }

    /** `Arc::clone`. */
    method ShareArc(of: Name, as_: Name)
      requires Valid() && of in View() && as_ !in View()
      modifies this
      ensures Valid() && View() == old(View())[as_ := old(View())[of]]
    {
      hide HoldersOf;
      var a := pointers[of];
      ghost var before := pointers;
      cells := cells[a := cells[a].(strong := cells[a].strong + 1)];
      pointers := pointers[as_ := a];
      forall b | b in cells ensures |HoldersOf(pointers, b)| == |HoldersOf(before, b)| + if b == a then 1 else 0 {
        HoldersMore(before, as_, a, b);
      }
    }

    /** Giving up a pointer frees the builder with the last one. */
    method DropArc(of: Name)
      requires Valid() && of in View()
      modifies this
      ensures Valid() && View() == old(View()) - {of}
    {
      hide HoldersOf;
      var a := pointers[of];
      ghost var before := pointers;
      pointers := pointers - {of};
      HoldersLess(before, of, a);
      RemoveOne(HoldersOf(before, a), of);
      forall b | b in cells && b != a ensures HoldersOf(pointers, b) == HoldersOf(before, b) {
        HoldersLess(before, of, b);
      }
      if cells[a].strong == 1 {
        assert HoldersOf(pointers, a) == {};
        Unheld(pointers, a);
        cells := cells - {a};
      } else {
        cells := cells[a := cells[a].(strong := cells[a].strong - 1)];
      }
    }

    /** `Arc::try_unwrap`: the builder is moved out of its cell if there is no other
        holder; otherwise nothing changes. */
    method TryUnwrap(of: Name) returns (r: Option<Builder>)
      requires Valid() && of in View()
      modifies this
      ensures Valid() && r.Some? == (old(HoldersOf(pointers, pointers[of])) == {of})
      ensures r.Some? ==> View() == old(View()) - {of} && r.value == old(View())[of]
      ensures r.None? ==> View() == old(View())
    {
      ghost var holders := HoldersOf(pointers, pointers[of]);
      assert of in holders;
      if cells[pointers[of]].strong == 1 {
        forall n | n in holders ensures n == of { OnlyOne(holders, n, of); }
        r := Some(cells[pointers[of]].builder);
        DropArc(of);
      } else {
        r := None;
      }
    }

    /** `unwrap_or_clone_arc`. */
    method UnwrapOrClone(of: Name) returns (b: Builder)
      requires Valid() && of in View()
      modifies this
      ensures Valid() && View() == old(View()) - {of} && b == old(View())[of]
    {
      var r := TryUnwrap(of);
      if r.Some? {
        b := r.value;
      } else {
        b := cells[pointers[of]].builder;
        DropArc(of);
      }
    }

    /** A setter, whichever it is. */
    method SetArc(of: Name, s: Setter, as_: Name)
      requires Valid() && Possible(View(), Set(of, s, as_))
      modifies this
      ensures Valid() && View() == DoPlain(old(View()), Set(of, s, as_))
    {
      var builder := UnwrapOrClone(of);
      builder := Apply(builder, s);
      NewArc(builder, as_);
    }

    /** Whatever is done to whatever pointers, everybody sees plain values. */
    method Do(op: Op)
      requires Valid() && Possible(View(), op)
      modifies this
      ensures Valid() && View() == DoPlain(old(View()), op)
    {
      match op
      case New(as_) => NewArc(Default, as_);
      case Share(of, as_) => ShareArc(of, as_);
      case Drop(of) => DropArc(of);
      case Set(of, s, as_) => SetArc(of, s, as_);
    }
  }

  // --- The last setting wins -------------------------------------------------------------

  /** The setters that led to each builder. */
  function DoPath(paths: map<Name, seq<Setter>>, op: Op): map<Name, seq<Setter>>
    requires Possible(paths, op)
  {
    match op
    case New(as_) => paths[as_ := []]
    case Share(of, as_) => paths[as_ := paths[of]]
    case Drop(of) => paths - {of}
    case Set(of, setter, as_) => (paths - {of})[as_ := paths[of] + [setter]]
  }

  function Build(path: seq<Setter>): Builder {
    if path == [] then Default else Apply(Build(path[..|path| - 1]), path[|path| - 1])
  }

  ghost predicate Explains(paths: map<Name, seq<Setter>>, held: map<Name, Builder>) {
    paths.Keys == held.Keys && forall n | n in held :: held[n] == Build(paths[n])
  }

  lemma PathsExplain(paths: map<Name, seq<Setter>>, held: map<Name, Builder>, op: Op)
    requires Explains(paths, held) && Possible(held, op)
    ensures Possible(paths, op) && Explains(DoPath(paths, op), DoPlain(held, op))
  {
    if op.Set? {
      var path := paths[op.of];
      assert (path + [op.setter])[..|path|] == path;
    }
  }

  function HomeserverOf(s: Setter): Option<Homeserver> {
    match s
    case HomeserverUrl(url) => Some(Url(url))
    case ServerNameSetter(name) => Some(ServerName(name))
    case ServerNameOrHomeserverUrl(text) => Some(ServerNameOrUrl(text))
    case ServerNameFromUserId(user) => Some(FromUserId(user))
    case _ => None
  }

  /** The homeserver is the one of the last of the four setters on the path … */
  lemma {:induction false} LastHomeserverWins(path: seq<Setter>, i: nat)
    requires i < |path| && HomeserverOf(path[i]).Some? && forall j | i < j < |path| :: HomeserverOf(path[j]).None?
    ensures Build(path).homeserver == HomeserverOf(path[i])
  {
    if i < |path| - 1 {
      LastHomeserverWins(path[..|path| - 1], i);
    }
  }

  /** … if there is any. */
  lemma {:induction false} NoHomeserver(path: seq<Setter>)
    requires forall s | s in path :: HomeserverOf(s).None?
    ensures Build(path).homeserver == None
  {
    if path != [] {
      NoHomeserver(path[..|path| - 1]);
      assert path[|path| - 1] in path;
    }
  }

  // --- Every field -----------------------------------------------------------------------

  datatype Field = TheHomeserver | TheSlidingSync | TheDmRooms | TheLockConfig | TheDelegate | TheMemory
  datatype Value = Server(homeserver: Option<Homeserver>) | Number(n: nat) | Delegate(delegate: Option<nat>)
      | Flag(on: bool)

  function ValueOf(b: Builder, f: Field): Value {
    match f
    case TheHomeserver => Server(b.homeserver)
    case TheSlidingSync => Number(b.slidingSync)
    case TheDmRooms => Number(b.dmRooms)
    case TheLockConfig => Number(b.lockConfig)
    case TheDelegate => Delegate(b.sessionDelegate)
    case TheMemory => Flag(b.memoryConstrained)
  }

  /** Which field a setter is for, and what it sets it to. */
  function Given(s: Setter): (Field, Value) {
    match s
    case DmRoomDefinition(definition) => (TheDmRooms, Number(definition))
    case CrossProcessLockConfig(config) => (TheLockConfig, Number(config))
    case SetSessionDelegate(delegate) => (TheDelegate, Delegate(Some(delegate)))
    case SystemIsMemoryConstrained => (TheMemory, Flag(true))
    case SlidingSyncVersionBuilder(version) => (TheSlidingSync, Number(version))
    case _ => (TheHomeserver, Server(HomeserverOf(s)))
  }

  /** A field is as the last setter for it on the path says, or as it is in a new builder. */
  ghost predicate IsLastGiven(path: seq<Setter>, f: Field, v: Value) {
    || ((forall s | s in path :: Given(s).0 != f) && v == ValueOf(Default, f))
    || exists i :: 0 <= i < |path| && Given(path[i]) == (f, v) && forall j | i < j < |path| :: Given(path[j]).0 != f
  }

  lemma ApplyGives(b: Builder, s: Setter, f: Field)
    ensures ValueOf(Apply(b, s), f) == if Given(s).0 == f then Given(s).1 else ValueOf(b, f)
  {
  }

  lemma {:induction false} FieldIsLast(path: seq<Setter>, f: Field)
    ensures IsLastGiven(path, f, ValueOf(Build(path), f))
  {
    hide Given, ValueOf, Apply;
    if path != [] {
      var front, last := path[..|path| - 1], path[|path| - 1];
      FieldIsLast(front, f);
      ApplyGives(Build(front), last, f);
      assert path == front + [last];
      if Given(last).0 == f {
        assert Given(path[|path| - 1]) == (f, ValueOf(Build(path), f));
      } else if i :| 0 <= i < |front| && Given(front[i]) == (f, ValueOf(Build(front), f))
                     && forall j | i < j < |front| :: Given(front[j]).0 != f {
        assert path[i] == front[i];
      }
    }
  }

  // --- Whole runs ------------------------------------------------------------------------

  /** What is held after doing everything from nothing, `None` if something is not possible … */
  function PlainAfter(ops: seq<Op>): Option<map<Name, Builder>> {
    if ops == [] then Some(map[])
    else
      var held := PlainAfter(ops[..|ops| - 1]);
      if held.Some? && Possible(held.value, ops[|ops| - 1]) then Some(DoPlain(held.value, ops[|ops| - 1])) else None
  }

  /** … and the setters that led there. */
  function PathsAfter(ops: seq<Op>): Option<map<Name, seq<Setter>>> {
    if ops == [] then Some(map[])
    else
      var paths := PathsAfter(ops[..|ops| - 1]);
      if paths.Some? && Possible(paths.value, ops[|ops| - 1]) then Some(DoPath(paths.value, ops[|ops| - 1])) else None
  }

  lemma {:induction false} RunExplained(ops: seq<Op>)
    ensures PlainAfter(ops).Some? <==> PathsAfter(ops).Some?
    ensures PlainAfter(ops).Some? ==> Explains(PathsAfter(ops).value, PlainAfter(ops).value)
  {
    if ops != [] {
      var before, op := ops[..|ops| - 1], ops[|ops| - 1];
      RunExplained(before);
      if PlainAfter(before).Some? && Possible(PlainAfter(before).value, op) {
        PathsExplain(PathsAfter(before).value, PlainAfter(before).value, op);
      }
    }
  }

  /** `h` is what the last setter of a homeserver on the path sets, if there is any. */
  ghost predicate IsLastHomeserver(path: seq<Setter>, h: Option<Homeserver>) {
    if h.None? then forall s | s in path :: HomeserverOf(s).None?
    else exists i :: 0 <= i < |path| && HomeserverOf(path[i]) == h && forall j | i < j < |path| ::
        HomeserverOf(path[j]).None?
  }

  lemma HomeserverIsLast(path: seq<Setter>)
    ensures IsLastHomeserver(path, Build(path).homeserver)
  {
    if forall s | s in path :: HomeserverOf(s).None? {
      NoHomeserver(path);
    } else {
      var i := LastSetting(path);
      LastHomeserverWins(path, i);
      assert HomeserverOf(path[i]) == Build(path).homeserver;
    }
  }

  lemma {:induction false} LastSetting(path: seq<Setter>) returns (i: nat)
    requires exists s :: s in path && HomeserverOf(s).Some?
    ensures i < |path| && HomeserverOf(path[i]).Some? && forall j | i < j < |path| :: HomeserverOf(path[j]).None?
  {
    var last := |path| - 1;
    if HomeserverOf(path[last]).Some? {
      i := last;
    } else {
      i := LastSetting(path[..last]);
    }
  }

  /** Any run of setters, copies and drops on shared pointers does to everybody's builder
      what it does to plain values. So each builder is what its own path of setters makes of
      a new one, and the last setting of a homeserver on that path wins. The run stops at
      the first operation on a pointer that is not there. */
  method Run(ops: seq<Op>) returns (arcs: Arcs, done: nat)
    ensures done <= |ops| && arcs.Valid() && PlainAfter(ops[..done]) == Some(arcs.View())
    ensures done < |ops| ==> PlainAfter(ops[..done + 1]).None?
    ensures PathsAfter(ops[..done]).Some? && Explains(PathsAfter(ops[..done]).value, arcs.View())
    ensures forall n | n in arcs.View() :: IsLastHomeserver(PathsAfter(ops[..done]).value[n], arcs.View()[n].homeserver)
    ensures forall n, f | n in arcs.View() ::
            IsLastGiven(PathsAfter(ops[..done]).value[n], f, ValueOf(arcs.View()[n], f))
  {
    hide HoldersOf, IsLastHomeserver, IsLastGiven, Apply, Build;
    arcs := new Arcs();
    done := 0;
    while done < |ops|
      invariant done <= |ops| && fresh(arcs) && arcs.Valid() && PlainAfter(ops[..done]) == Some(arcs.View())
    {
      assert ops[..done + 1][..done] == ops[..done];
      var possible := CanDo(arcs, ops[done]);
      if !possible { break; }
      arcs.Do(ops[done]);
      done := done + 1;
    }
    RunExplained(ops[..done]);
    forall n | n in arcs.View()
      ensures IsLastHomeserver(PathsAfter(ops[..done]).value[n], arcs.View()[n].homeserver)
    {
      HomeserverIsLast(PathsAfter(ops[..done]).value[n]);
    }
    forall n, f | n in arcs.View()
      ensures IsLastGiven(PathsAfter(ops[..done]).value[n], f, ValueOf(arcs.View()[n], f))
    {
      FieldIsLast(PathsAfter(ops[..done]).value[n], f);
    }
  }

  method CanDo(arcs: Arcs, op: Op) returns (r: bool)
    requires arcs.Valid()
    ensures r == Possible(arcs.View(), op)
  {
    match op
    case New(as_) => r := as_ !in arcs.pointers;
    case Share(of, as_) => r := of in arcs.pointers && as_ !in arcs.pointers;
    case Drop(of) => r := of in arcs.pointers;
    case Set(of, _, as_) => r := of in arcs.pointers && (as_ == of || as_ !in arcs.pointers);
  }
}
