/** Consolidating the generated modulemap files into one: the first file is the base,
    the header lines of all others are added to it. */
module Modulemap {
  import opened Wrappers
  import opened SwiftImports

  const RENAMED := "module MatrixSDKFFI {"

  /** What the proofs need of `char::is_whitespace`. */
  predicate SpaceClass(space: char -> bool) {
    space('\r') && !space('m') && !space('{')
  }

  // --- Text ----------------------------------------------------------------------------

  function TrimStart(space: char -> bool, s: string): (r: string)
    ensures |r| <= |s| && (r == "" || !space(r[0]))
  {
    if s != "" && space(s[0]) then TrimStart(space, s[1..]) else s
  }

  function TrimEnd(space: char -> bool, s: string): (r: string)
    ensures |r| <= |s| && (r == "" || !space(r[|r| - 1]))
  {
    if s != "" && space(s[|s| - 1]) then TrimEnd(space, s[..|s| - 1]) else s
  }

  function Trim(space: char -> bool, s: string): string {
    TrimEnd(space, TrimStart(space, s))
  }

  predicate IsTrimmed(space: char -> bool, s: string) {
    s == "" || (!space(s[0]) && !space(s[|s| - 1]))
  }

  lemma TrimTrims(space: char -> bool, s: string)
    ensures IsTrimmed(space, Trim(space, s)) && forall c | c in Trim(space, s) :: c in s
  {
    hide TrimStart, TrimEnd;
    var t := TrimStart(space, s);
    var a := StartIs(space, s);
    var b := EndIs(space, t);
    var u := TrimEnd(space, t);
    assert forall c | c in u :: c in u + b;
    assert forall c | c in t :: c in a + t;
    if u != "" { assert t[0] == u[0]; }
  }

  /** Only spaces go, and only at the ends. */
  lemma TrimIs(space: char -> bool, s: string) returns (a: string, b: string)
    ensures s == a + Trim(space, s) + b && forall c | c in a + b :: space(c)
  {
    hide TrimStart, TrimEnd;
    var t := TrimStart(space, s);
    a := StartIs(space, s);
    b := EndIs(space, t);
    assert a + (TrimEnd(space, t) + b) == a + TrimEnd(space, t) + b;
    assert forall c | c in a + b :: c in a || c in b;
  }

  lemma {:induction false} StartIs(space: char -> bool, s: string) returns (a: string)
    ensures s == a + TrimStart(space, s) && forall c | c in a :: space(c)
  {
    a := "";
    if s != "" && space(s[0]) {
      var rest := StartIs(space, s[1..]);
      a := [s[0]] + rest;
      assert s == [s[0]] + s[1..] == a + TrimStart(space, s[1..]);
    }
  }

  lemma {:induction false} EndIs(space: char -> bool, s: string) returns (b: string)
    ensures s == TrimEnd(space, s) + b && forall c | c in b :: space(c)
  {
    b := "";
    if s != "" && space(s[|s| - 1]) {
      var rest := EndIs(space, s[..|s| - 1]);
      b := rest + [s[|s| - 1]];
      assert s == s[..|s| - 1] + [s[|s| - 1]] == TrimEnd(space, s[..|s| - 1]) + b;
    }
  }

  lemma TrimTrimmed(space: char -> bool, s: string)
    requires IsTrimmed(space, s)
    ensures Trim(space, s) == s
  {
  }

  function NewlineAt(s: string): (n: nat)
    ensures n <= |s| && '\n' !in s[..n] && (n < |s| ==> s[n] == '\n')
  {
    if s == "" || s[0] == '\n' then 0
    else
      var n := NewlineAt(s[1..]);
      assert s[..n + 1] == [s[0]] + s[1..][..n];
      n + 1
  }

  function Chomp(s: string): string {
    if s != "" && s[|s| - 1] == '\r' then s[..|s| - 1] else s
  }

  /** `str::lines`. */
  function Lines(s: string): seq<string>
    decreases |s|
  {
    if s == "" then []
    else
      var n := NewlineAt(s);
      if n == |s| then [s] else [Chomp(s[..n])] + Lines(s[n + 1..])
  }

  function Join(ls: seq<string>): string {
    if ls == [] then "" else if |ls| == 1 then ls[0] else ls[0] + "\n" + Join(ls[1..])
  }

  function Text(ls: seq<string>): string {
    Join(ls) + "\n"
  }

  predicate IsLine(space: char -> bool, l: string) {
    IsTrimmed(space, l) && '\n' !in l
  }

  lemma {:induction false} NewlineIs(l: string, rest: string)
    requires '\n' !in l
    ensures NewlineAt(l + "\n" + rest) == |l|
  {
    if l == "" {
      assert (l + "\n" + rest)[0] == '\n';
    } else {
      assert (l + "\n" + rest)[1..] == l[1..] + "\n" + rest;
      NewlineIs(l[1..], rest);
    }
  }

  lemma {:induction false} LinesOfText(space: char -> bool, ls: seq<string>)
    requires SpaceClass(space) && ls != [] && forall l | l in ls :: IsLine(space, l)
    ensures Lines(Text(ls)) == ls
    decreases |ls|
  {
    hide NewlineAt;
    var l := ls[0];
    assert l in ls && Chomp(l) == l;
    if |ls| == 1 {
      NewlineIs(l, "");
      assert Text(ls) == l + "\n" + "" && Text(ls)[..|l|] == l;
    } else {
      LinesOfText(space, ls[1..]);
      var rest := Text(ls[1..]);
      assert Text(ls) == l + "\n" + rest;
      NewlineIs(l, rest);
      assert Text(ls)[..|l|] == l && Text(ls)[|l| + 1..] == rest;
      assert ls == [l] + ls[1..];
    }
  }

  /** Conversely, the lines of a text without carriage returns are the text. */
  lemma {:induction false} TextOfLines(s: string)
    requires '\r' !in s
    ensures s == "" || s == (if s[|s| - 1] == '\n' then Text(Lines(s)) else Join(Lines(s)))
    decreases |s|
  {
    hide NewlineAt;
    var n := NewlineAt(s);
    if n < |s| {
      var l, rest := s[..n], s[n + 1..];
      assert s == l + "\n" + rest && Chomp(l) == l;
      assert Lines(s) == [l] + Lines(rest) && (rest != "" ==> Lines(rest) != []);
      TextOfLines(rest);
      hide Lines;
      assert ([l] + Lines(rest))[1..] == Lines(rest);
      if rest != "" { assert s[|s| - 1] == rest[|rest| - 1]; }
    }
  }

  function TrimmedLines(space: char -> bool, s: string): seq<string> {
    seq(|Lines(s)|, i requires 0 <= i < |Lines(s)| => Trim(space, Lines(s)[i]))
  }

  lemma {:induction false} LinesHaveNoNewline(s: string)
    ensures forall l | l in Lines(s) :: '\n' !in l
    decreases |s|
  {
    hide NewlineAt;
    if s != "" && NewlineAt(s) < |s| {
      LinesHaveNoNewline(s[NewlineAt(s) + 1..]);
    }
  }

  lemma TrimmedAreLines(space: char -> bool, s: string)
    ensures forall l | l in TrimmedLines(space, s) :: IsLine(space, l)
  {
    hide Trim, IsTrimmed;
    LinesHaveNoNewline(s);
    forall i | 0 <= i < |TrimmedLines(space, s)| ensures IsLine(space, TrimmedLines(space, s)[i]) {
      assert Lines(s)[i] in Lines(s);
      TrimTrims(space, Lines(s)[i]);
    }
  }

  // --- The consolidated file -----------------------------------------------------------

  predicate IsHeader(l: string) {
    "header " <= l
  }

  function Rename(l: string): string {
    if "module " <= l then RENAMED else l
  }

  function Renamed(ls: seq<string>): (r: seq<string>)
    ensures |r| == |ls| && forall i | 0 <= i < |ls| :: r[i] == Rename(ls[i])
  {
    seq(|ls|, i requires 0 <= i < |ls| => Rename(ls[i]))
  }

  /** One past the last header line; 0 if there is none. */
  function AfterLastHeader(ls: seq<string>): (n: nat)
    ensures n <= |ls| && (n > 0 ==> IsHeader(ls[n - 1])) && forall i | n <= i < |ls| :: !IsHeader(ls[i])
  {
    if ls == [] then 0 else if IsHeader(ls[|ls| - 1]) then |ls| else AfterLastHeader(ls[..|ls| - 1])
  }

  /** The header lines, each at its first occurrence. */
  function Headers(ls: seq<string>): seq<string> {
    if ls == [] then []
    else
      var hs, l := Headers(ls[..|ls| - 1]), ls[|ls| - 1];
      if IsHeader(l) && l !in hs then hs + [l] else hs
  }

  function Spliced(base: seq<string>, extra: seq<string>): seq<string> {
    var n := AfterLastHeader(base);
    if n == 0 then base else base[..n] + extra + base[n..]
  }

  predicate IsModulemap(f: File) {
    f.extension == Some("modulemap")
  }

  function Modulemaps(files: seq<File>): seq<File> {
    if files == [] then []
    else
      var l := Modulemaps(files[..|files| - 1]);
      if IsModulemap(files[|files| - 1]) then l + [files[|files| - 1]] else l
  }

  function Others(files: seq<File>): seq<File> {
    if files == [] then []
    else
      var l := Others(files[..|files| - 1]);
      if IsModulemap(files[|files| - 1]) then l else l + [files[|files| - 1]]
  }

  function AllLines(space: char -> bool, files: seq<File>): seq<string> {
    if files == [] then [] else AllLines(space, files[..|files| - 1]) + TrimmedLines(space, files[|files| - 1].contents)
  }

  /** The lines of the result: the renamed base with the other files' headers after
      its own. */
  function Result(space: char -> bool, maps: seq<File>): seq<string>
    requires maps != []
  {
    Spliced(Renamed(TrimmedLines(space, maps[0].contents)), Headers(AllLines(space, maps[1..])))
  }

  // --- The headers that are added ------------------------------------------------------

  function FirstIndex(ls: seq<string>, l: string): (n: nat)
    requires l in ls
    ensures n < |ls| && ls[n] == l && l !in ls[..n]
  {
    if ls[0] == l then 0
    else
      var n := FirstIndex(ls[1..], l);
      assert ls[..n + 1] == [ls[0]] + ls[1..][..n];
      n + 1
  }

  /** Exactly the header lines are added … */
  lemma {:induction false} HeadersAre(ls: seq<string>)
    ensures forall l :: l in Headers(ls) <==> l in ls && IsHeader(l)
  {
    if ls != [] {
      HeadersAre(ls[..|ls| - 1]);
      assert ls == ls[..|ls| - 1] + [ls[|ls| - 1]];
    }
  }

  /** … each once, in the order in which they first occur. */
  lemma {:induction false} HeadersInOrder(ls: seq<string>, i: nat, j: nat)
    requires i < j < |Headers(ls)|
    ensures Headers(ls)[i] in ls && Headers(ls)[j] in ls
            && FirstIndex(ls, Headers(ls)[i]) < FirstIndex(ls, Headers(ls)[j])
  {
    HeadersAre(ls);
    var front := ls[..|ls| - 1];
    HeadersAre(front);
    assert Headers(front)[i] == Headers(ls)[i] && Headers(ls)[i] in Headers(front);
    FirstIndexInFront(ls, Headers(ls)[i]);
    if j < |Headers(front)| {
      HeadersInOrder(front, i, j);
      FirstIndexInFront(ls, Headers(ls)[j]);
    } else {
      assert Headers(ls)[j] !in front;
      FirstIndexLast(ls);
    }
  }

  lemma {:induction false} FirstIndexInFront(ls: seq<string>, l: string)
    requires ls != [] && l in ls[..|ls| - 1]
    ensures l in ls && FirstIndex(ls, l) == FirstIndex(ls[..|ls| - 1], l)
  {
    var front := ls[..|ls| - 1];
    assert ls == front + [ls[|ls| - 1]];
    if ls[0] != l {
      assert front[1..] == ls[1..][..|ls| - 2] && front == [front[0]] + front[1..];
      FirstIndexInFront(ls[1..], l);
    }
  }

  lemma {:induction false} FirstIndexLast(ls: seq<string>)
    requires ls != [] && ls[|ls| - 1] !in ls[..|ls| - 1]
    ensures FirstIndex(ls, ls[|ls| - 1]) == |ls| - 1
  {
    if |ls| > 1 {
      assert ls[..|ls| - 1][0] == ls[0] && ls[1..][..|ls| - 2] == ls[..|ls| - 1][1..];
      FirstIndexLast(ls[1..]);
    }
  }

  // --- Consolidating again -------------------------------------------------------------

  lemma RenamedStays(space: char -> bool)
    requires SpaceClass(space)
    ensures IsLine(space, RENAMED) && Rename(RENAMED) == RENAMED && !IsHeader(RENAMED)
  {
    assert RENAMED[0] == 'm' && RENAMED[|RENAMED| - 1] == '{';
  }

  lemma ResultLines(space: char -> bool, maps: seq<File>)
    requires SpaceClass(space) && maps != []
    ensures forall l | l in Result(space, maps) :: IsLine(space, l) && Rename(l) == l
  {
    hide IsLine, IsHeader, Rename, TrimmedLines;
    var ls := TrimmedLines(space, maps[0].contents);
    var base, extra := Renamed(ls), Headers(AllLines(space, maps[1..]));
    forall l | l in base ensures IsLine(space, l) && Rename(l) == l {
      TrimmedAreLines(space, maps[0].contents);
      RenamedStays(space);
      var i :| 0 <= i < |ls| && base[i] == l;
      RenameOnce(ls[i]);
    }
    forall l | l in extra ensures IsLine(space, l) && Rename(l) == l {
      HeadersAre(AllLines(space, maps[1..]));
      AllLinesAreLines(space, maps[1..]);
      HeaderKeepsName(l);
    }
    var n := AfterLastHeader(base);
    assert forall l | l in base[..n] || l in base[n..] :: l in base;
  }

  lemma RenameOnce(l: string)
    ensures Rename(l) == l || Rename(l) == RENAMED
  {
  }

  lemma HeaderKeepsName(l: string)
    requires IsHeader(l)
    ensures Rename(l) == l
  {
    assert l[0] == 'h';
  }

  lemma {:induction false} AllLinesAreLines(space: char -> bool, files: seq<File>)
    ensures forall l | l in AllLines(space, files) :: IsLine(space, l)
  {
    hide IsLine, TrimmedLines;
    if files != [] {
      AllLinesAreLines(space, files[..|files| - 1]);
      TrimmedAreLines(space, files[|files| - 1].contents);
    }
  }

  /** Consolidating the result alone reproduces it, character for character. */
  lemma {:induction false} ConsolidateIdempotent(space: char -> bool, maps: seq<File>)
    requires SpaceClass(space) && maps != []
    ensures var out := Text(Result(space, maps)); Text(Result(space, [File(Some("modulemap"), out)])) == out
  {
    hide IsLine, IsTrimmed, Trim, Rename, Lines, Result;
    var ls := Result(space, maps);
    var out := Text(ls);
    var again := File(Some("modulemap"), out);
    ResultLines(space, maps);
    Alone(space, again);
    if ls == [] {
      assert out == "\n";
      assert TrimmedLines(space, out) == [""] && Renamed([""]) == [""] by { EmptyLine(space); }
    } else {
      LinesOfText(space, ls);
      assert TrimmedLines(space, out) == ls by {
        forall i | 0 <= i < |ls| ensures Trim(space, ls[i]) == ls[i] { StaysTrimmed(space, ls[i]); }
      }
      assert Renamed(ls) == ls;
    }
  }

  lemma StaysTrimmed(space: char -> bool, l: string)
    requires IsLine(space, l)
    ensures Trim(space, l) == l
  {
    TrimTrimmed(space, l);
  }

  lemma EmptyLine(space: char -> bool)
    ensures Lines("\n") == [""] && Trim(space, "") == "" && Rename("") == ""
  {
    assert "\n"[0] == '\n' && NewlineAt("\n") == 0;
    assert Lines("\n"[1..]) == [];
  }

  lemma SplicedNothing(base: seq<string>)
    ensures Spliced(base, []) == base
  {
    hide IsHeader;
    var n := AfterLastHeader(base);
    assert base == base[..n] + [] + base[n..];
  }

  lemma Alone(space: char -> bool, f: File)
    ensures Result(space, [f]) == Renamed(TrimmedLines(space, f.contents))
  {
    hide TrimmedLines, Renamed, Spliced;
    assert [f][1..] == [] && AllLines(space, []) == [] && Headers([]) == [];
    SplicedNothing(Renamed(TrimmedLines(space, f.contents)));
  }

  // --- What the result says, file by file --------------------------------------------------

  /** `ix` are the indices of the files that have the extension, or of those that have not. */
  predicate Selects(files: seq<File>, ix: seq<nat>, wanted: bool) {
    && (forall a, b | 0 <= a < b < |ix| :: ix[a] < ix[b])
    && (forall a | 0 <= a < |ix| :: ix[a] < |files|)
    && (forall i | 0 <= i < |files| :: i in ix <==> IsModulemap(files[i]) == wanted)
  }

  predicate AreAt(files: seq<File>, ix: seq<nat>, chosen: seq<File>) {
    |chosen| == |ix| && forall a | 0 <= a < |ix| :: ix[a] < |files| && chosen[a] == files[ix[a]]
  }

  /** The base with its module renamed. */
  predicate IsBase(space: char -> bool, f: File, b: seq<string>) {
    var ls := Lines(f.contents);
    && |b| == |ls|
    && forall i | 0 <= i < |ls| :: b[i] == if "module " <= Trim(space, ls[i]) then RENAMED else Trim(space, ls[i])
  }

  /** The lines of each file, trimmed. */
  predicate AreTexts(space: char -> bool, files: seq<File>, ts: seq<seq<string>>) {
    |ts| == |files| && forall k | 0 <= k < |files| :: IsText(space, files[k], ts[k])
  }

  predicate IsText(space: char -> bool, f: File, t: seq<string>) {
    |t| == |Lines(f.contents)| && forall i | 0 <= i < |t| :: t[i] == Trim(space, Lines(f.contents)[i])
  }

  /** The first text with this line. */
  function FirstText(ts: seq<seq<string>>, l: string): (k: nat)
    ensures k <= |ts| && (k < |ts| ==> l in ts[k]) && forall i | 0 <= i < k :: l !in ts[i]
  {
    if ts == [] || l in ts[0] then 0 else 1 + FirstText(ts[1..], l)
  }

  /** `l` occurs before `m`, in an earlier text or earlier in the same. */
  predicate Earlier(ts: seq<seq<string>>, l: string, m: string) {
    var j, k := FirstText(ts, l), FirstText(ts, m);
    j < |ts| && k < |ts| && (j < k || (j == k && FirstIndex(ts[j], l) < FirstIndex(ts[k], m)))
  }

  predicate OccursIn(ts: seq<seq<string>>, l: string) {
    exists k :: 0 <= k < |ts| && l in ts[k]
  }

  /** Exactly the headers in these texts, each once, in the order in which they first occur. */
  ghost predicate AreHeaders(ts: seq<seq<string>>, h: seq<string>) {
    && (forall l :: l in h <==> IsHeader(l) && OccursIn(ts, l))
    && (forall a, b | 0 <= a < b < |h| :: h[a] != h[b] && Earlier(ts, h[a], h[b]))
  }

  /** `h` comes right after the last header of `b`, if there is one. */
  ghost predicate IsInserted(b: seq<string>, h: seq<string>, ls: seq<string>) {
    if forall l | l in b :: !IsHeader(l) then ls == b
    else exists n: nat :: HeadersEndAt(b, n) && ls == b[..n] + h + b[n..]
  }

  predicate HeadersEndAt(b: seq<string>, n: nat) {
    0 < n <= |b| && IsHeader(b[n - 1]) && forall i | n <= i < |b| :: !IsHeader(b[i])
  }

  /** The lines of the one file that is left: those of the first one, renamed, with the headers
      of all later ones after its own. */
  ghost predicate IsConsolidated(space: char -> bool, maps: seq<File>, ls: seq<string>) {
    && maps != []
    && exists b, ts, h :: && IsBase(space, maps[0], b) && AreTexts(space, maps[1..], ts)
                          && AreHeaders(ts, h) && IsInserted(b, h, ls)
  }

  lemma {:induction false} ChosenAre(files: seq<File>, wanted: bool) returns (ix: seq<nat>)
    ensures Selects(files, ix, wanted)
    ensures AreAt(files, ix, if wanted then Modulemaps(files) else Others(files))
  {
    hide Selects, AreAt, IsModulemap;
    if files == [] {
      ix := [];
      NoneChosen(wanted);
    } else {
      var front, last := files[..|files| - 1], files[|files| - 1];
      assert files == front + [last];
      ix := ChosenAre(front, wanted);
      OneMoreChosen(front, last, ix, wanted, if wanted then Modulemaps(front) else Others(front));
      if IsModulemap(last) == wanted { ix := ix + [|front|]; }
    }
  }

  lemma NoneChosen(wanted: bool)
    ensures Selects([], [], wanted) && AreAt([], [], [])
  {
  }

  lemma OneMoreChosen(files: seq<File>, f: File, ix: seq<nat>, wanted: bool, chosen: seq<File>)
    requires Selects(files, ix, wanted) && AreAt(files, ix, chosen)
    ensures IsModulemap(f) == wanted ==>
            Selects(files + [f], ix + [|files|], wanted) && AreAt(files + [f], ix + [|files|], chosen + [f])
    ensures IsModulemap(f) != wanted ==> Selects(files + [f], ix, wanted) && AreAt(files + [f], ix, chosen)
  {
    hide IsModulemap;
    var all := files + [f];
    assert forall i | 0 <= i < |files| :: all[i] == files[i];
    assert |files| !in ix;
  }

  function Concat(ts: seq<seq<string>>): seq<string> {
    if ts == [] then [] else Concat(ts[..|ts| - 1]) + ts[|ts| - 1]
  }

  lemma {:induction false} ConcatHas(ts: seq<seq<string>>, l: string)
    ensures l in Concat(ts) <==> OccursIn(ts, l)
  {
    if ts != [] {
      var front, last := ts[..|ts| - 1], ts[|ts| - 1];
      ConcatHas(front, l);
      assert ts == front + [last];
      if OccursIn(ts, l) {
        var k :| 0 <= k < |ts| && l in ts[k];
        assert k < |front| ==> front[k] == ts[k];
      }
      if OccursIn(front, l) {
        var k :| 0 <= k < |front| && l in front[k];
        assert ts[k] == front[k];
      }
    }
  }

  /** Where a line first occurs among all. */
  lemma {:induction false} FirstOfAll(ts: seq<seq<string>>, l: string)
    requires l in Concat(ts)
    ensures var k := FirstText(ts, l);
            k < |ts| && FirstIndex(Concat(ts), l) == |Concat(ts[..k])| + FirstIndex(ts[k], l)
  {
    var front, last := ts[..|ts| - 1], ts[|ts| - 1];
    assert ts == front + [last];
    FirstTextMore(front, last, l);
    ConcatHas(front, l);
    if l in Concat(front) {
      FirstOfAll(front, l);
      var k := FirstText(front, l);
      assert front[..k] == ts[..k] && front[k] == ts[k];
      FirstInFront(Concat(front), last, l);
    } else {
      assert ts[..|front|] == front;
      FirstInBack(Concat(front), last, l);
    }
  }

  lemma FirstTextMore(front: seq<seq<string>>, last: seq<string>, l: string)
    ensures var k := FirstText(front, l);
            FirstText(front + [last], l) == if k < |front| then k else if l in last then |front| else |front| + 1
    ensures OccursIn(front, l) <==> FirstText(front, l) < |front|
  {
    var ts := front + [last];
    assert ts[|front|] == last && forall i | 0 <= i < |front| :: ts[i] == front[i];
  }

  lemma {:induction false} FirstUnique(ls: seq<string>, l: string, n: nat)
    requires n < |ls| && ls[n] == l && l !in ls[..n]
    ensures l in ls && FirstIndex(ls, l) == n
  {
    if n > 0 {
      assert ls[0] == ls[..n][0] && ls[0] in ls[..n];
      assert ls[1..][..n - 1] == ls[..n][1..];
      FirstUnique(ls[1..], l, n - 1);
    }
  }

  lemma FirstInFront(a: seq<string>, b: seq<string>, l: string)
    requires l in a
    ensures l in a + b && FirstIndex(a + b, l) == FirstIndex(a, l)
  {
    var j := FirstIndex(a, l);
    assert (a + b)[j] == l && (a + b)[..j] == a[..j];
    FirstUnique(a + b, l, j);
  }

  lemma FirstInBack(a: seq<string>, b: seq<string>, l: string)
    requires l !in a && l in b
    ensures l in a + b && FirstIndex(a + b, l) == |a| + FirstIndex(b, l)
  {
    var j := FirstIndex(b, l);
    assert (a + b)[|a| + j] == l && (a + b)[..|a| + j] == a + b[..j];
    FirstUnique(a + b, l, |a| + j);
  }

  lemma {:induction false} ConcatGrows(ts: seq<seq<string>>, j: nat, k: nat)
    requires j < k <= |ts|
    ensures |Concat(ts[..j])| + |ts[j]| <= |Concat(ts[..k])|
    decreases k
  {
    assert ts[..k][..k - 1] == ts[..k - 1] && ts[..k][k - 1] == ts[k - 1];
    if j < k - 1 { ConcatGrows(ts, j, k - 1); }
  }

  lemma FirstIsEarlier(ts: seq<seq<string>>, l: string, m: string)
    requires l in Concat(ts) && m in Concat(ts) && FirstIndex(Concat(ts), l) < FirstIndex(Concat(ts), m)
    ensures Earlier(ts, l, m)
  {
    hide Concat;
    FirstOfAll(ts, l);
    FirstOfAll(ts, m);
    var j, k := FirstText(ts, l), FirstText(ts, m);
    if k < j { ConcatGrows(ts, k, j); }
  }

  lemma HeadersOfTexts(ts: seq<seq<string>>)
    ensures AreHeaders(ts, Headers(Concat(ts)))
  {
    hide Concat, Earlier, IsHeader, OccursIn;
    var all := Concat(ts);
    var h := Headers(all);
    HeadersAre(all);
    forall l ensures l in all <==> OccursIn(ts, l) { ConcatHas(ts, l); }
    forall a, b | 0 <= a < b < |h| ensures h[a] != h[b] && Earlier(ts, h[a], h[b]) {
      HeadersInOrder(all, a, b);
      FirstIsEarlier(ts, h[a], h[b]);
    }
  }

  lemma {:induction false} TextsOf(space: char -> bool, files: seq<File>) returns (ts: seq<seq<string>>)
    ensures AreTexts(space, files, ts) && Concat(ts) == AllLines(space, files)
  {
    hide Trim, Lines;
    if files == [] {
      ts := [];
    } else {
      var front, last := files[..|files| - 1], files[|files| - 1];
      var before := TextsOf(space, front);
      ts := before + [TrimmedLines(space, last.contents)];
      assert ts[..|before|] == before;
      forall k | 0 <= k < |files| ensures IsText(space, files[k], ts[k]) {
        if k < |front| { assert front[k] == files[k] && ts[k] == before[k]; }
      }
    }
  }

  lemma SplicedIs(b: seq<string>, h: seq<string>)
    ensures IsInserted(b, h, Spliced(b, h))
  {
    hide IsHeader;
    var n := AfterLastHeader(b);
    if n == 0 {
      forall l | l in b ensures !IsHeader(l) { var i :| 0 <= i < |b| && b[i] == l; }
    } else {
      assert b[n - 1] in b && HeadersEndAt(b, n);
    }
  }

  lemma ResultIs(space: char -> bool, maps: seq<File>)
    requires maps != []
    ensures IsConsolidated(space, maps, Result(space, maps))
  {
    hide Spliced, AllLines, Headers, AreHeaders, AreTexts, IsInserted, Trim, Lines, Concat;
    var b, h := Renamed(TrimmedLines(space, maps[0].contents)), Headers(AllLines(space, maps[1..]));
    var ts := TextsOf(space, maps[1..]);
    HeadersOfTexts(ts);
    SplicedIs(b, h);
    assert IsBase(space, maps[0], b);
  }

  /** The files without the extension stay, in order; those with it become one. */
  ghost predicate Consolidated(space: char -> bool, files: seq<File>, remaining: seq<File>, modulemap: Option<string>) {
    && (exists ix :: Selects(files, ix, false) && AreAt(files, ix, remaining))
    && (exists ix, maps :: Selects(files, ix, true) && AreAt(files, ix, maps) && Becomes(space, maps, modulemap))
  }

  ghost predicate Becomes(space: char -> bool, maps: seq<File>, modulemap: Option<string>) {
    if maps == [] then modulemap.None?
    else modulemap.Some? && exists ls :: IsConsolidated(space, maps, ls) && modulemap.value == Text(ls)
  }

  lemma ConsolidatedIs(space: char -> bool, files: seq<File>)
    ensures Consolidated(space, files, Others(files),
                         if Modulemaps(files) == [] then None else Some(Text(Result(space, Modulemaps(files)))))
  {
    hide IsConsolidated, Selects, AreAt, Result, Text;
    var rest := ChosenAre(files, false);
    var chosen := ChosenAre(files, true);
    if Modulemaps(files) != [] { ResultIs(space, Modulemaps(files)); }
  }

  // --- The code --------------------------------------------------------------------------

  /** The loops as written; `None` where the code panics because no file is there. The files
      that are not consolidated stay, in order. */
  method ConsolidateModulemapFiles(space: char -> bool, files: seq<File>)
    returns (remaining: seq<File>, modulemap: Option<string>)
    requires SpaceClass(space)
    ensures remaining == Others(files)
    ensures modulemap == if Modulemaps(files) == [] then None else Some(Text(Result(space, Modulemaps(files))))
    ensures Consolidated(space, files, remaining, modulemap)
  {
    hide Trim, IsHeader, Rename, IsModulemap, Consolidated, Text, IsInserted, TrimmedLines, Headers, Spliced, Renamed;
    var base: Option<string>, extraHeaders: seq<string> := None, [];
    remaining := [];
    var i := 0;
    while i < |files|
      invariant 0 <= i <= |files|
      invariant remaining == Others(files[..i])
      invariant var maps := Modulemaps(files[..i]);
                if maps == [] then base == None && extraHeaders == []
                else base == Some(maps[0].contents) && extraHeaders == Headers(AllLines(space, maps[1..]))
    {
      ghost var maps := Modulemaps(files[..i]);
      assert files[..i + 1][..i] == files[..i];
      if IsModulemap(files[i]) {
        if base.None? {
          NoHeaders();
          base := Some(files[i].contents);
        } else {
          extraHeaders := AddHeaders(space, AllLines(space, maps[1..]), extraHeaders, files[i].contents);
          assert (maps + [files[i]])[1..] == maps[1..] + [files[i]];
          assert (maps[1..] + [files[i]])[..|maps| - 1] == maps[1..];
        }
      } else {
        remaining := remaining + [files[i]];
      }
      i := i + 1;
    }
    assert files[..i] == files;
    ConsolidatedIs(space, files);
    if base.None? {
      return remaining, None;
    }
    var lines := Rebuild(space, base.value, extraHeaders);
    modulemap := Some(Text(lines));
  }

  lemma NoHeaders()
    ensures Headers([]) == []
  {
  }

  method AddHeaders(space: char -> bool, ghost seen: seq<string>, headers: seq<string>, contents: string)
    returns (headers': seq<string>)
    requires headers == Headers(seen)
    ensures headers' == Headers(seen + TrimmedLines(space, contents))
  {
    hide Trim, IsHeader;
    headers' := headers;
    var lines, i := Lines(contents), 0;
    ghost var trimmed := TrimmedLines(space, contents);
    assert seen + trimmed[..0] == seen;
    while i < |lines|
      invariant 0 <= i <= |lines| && headers' == Headers(seen + trimmed[..i])
    {
      var line := Trim(space, lines[i]);
      assert (seen + trimmed[..i + 1])[..|seen| + i] == seen + trimmed[..i];
      if IsHeader(line) && line !in headers' {
        headers' := headers' + [line];
      }
      i := i + 1;
    }
    assert trimmed[..i] == trimmed;
  }

  lemma RenameCases(l: string)
    ensures Rename(l) == if "module " <= l then RENAMED else l
  {
  }

  lemma LastHeaderMore(ls: seq<string>, i: nat)
    requires i < |ls|
    ensures ls[..i + 1] == ls[..i] + [ls[i]]
    ensures AfterLastHeader(ls[..i + 1]) == if IsHeader(ls[i]) then i + 1 else AfterLastHeader(ls[..i])
  {
    hide IsHeader;
    assert ls[..i + 1][..i] == ls[..i];
  }

  method Rebuild(space: char -> bool, base: string, extraHeaders: seq<string>) returns (lines: seq<string>)
    requires SpaceClass(space)
    ensures lines == Spliced(Renamed(TrimmedLines(space, base)), extraHeaders)
    ensures IsInserted(Renamed(TrimmedLines(space, base)), extraHeaders, lines)
  {
    SplicedIs(Renamed(TrimmedLines(space, base)), extraHeaders);
    hide IsInserted;
    hide Trim, IsHeader, Lines, Rename, AfterLastHeader;
    lines := [];
    var lastHeader: Option<nat> := None;
    var source, i := Lines(base), 0;
    ghost var whole := Renamed(TrimmedLines(space, base));
    assert AfterLastHeader(whole[..0]) == 0;
    while i < |source|
      invariant 0 <= i <= |source| && lines == whole[..i]
      invariant AfterLastHeader(whole[..i]) == if lastHeader.None? then 0 else lastHeader.value + 1
    {
      var line := Trim(space, source[i]);
      RenameCases(line);
      LastHeaderMore(whole, i);
      if "module " <= line {
        RenamedStays(space);
        lines := lines + [RENAMED];
      } else {
        TrimTrims(space, source[i]);
        TrimTrimmed(space, line);
        if IsHeader(Trim(space, line)) {
          lastHeader := Some(|lines|);
        }
        lines := lines + [line];
      }
      i := i + 1;
    }
    assert whole[..i] == whole;
    if lastHeader.Some? {
      var n := lastHeader.value + 1;
      lines := lines[..n] + extraHeaders + lines[n..];
    }
  }
}
