/** Which objects of the static library are merged to hide private symbols. Strings
    are UTF-8 byte sequences here, because the crate of an object is found by byte
    offsets. */
module Archive {
  import opened Wrappers

  type Byte = x: int | 0 <= x < 256
  type Bytes = seq<Byte>

  const DASH: Byte := 0x2d
  const DOT: Byte := 0x2e
  const COLON: Byte := 0x3a

  // --- UTF-8, section 4 of RFC 3629 ------------------------------------------------------

  predicate Tail(b: Byte) {
    0x80 <= b < 0xc0
  }

  predicate Tails(s: Bytes, n: nat) {
    n <= |s| && forall i | 1 <= i < n :: Tail(s[i])
  }

  /** The length of the character at the start; 0 if there is none. */
  function CharLen(s: Bytes): nat {
    if s == [] then 0
    else if s[0] < 0x80 then 1
    else if 0xc2 <= s[0] < 0xe0 && Tails(s, 2) then 2
    else if 0xe0 <= s[0] < 0xf0 && Tails(s, 3) && (s[0] == 0xe0 ==> s[1] >= 0xa0) && (s[0] == 0xed ==> s[1] < 0xa0)
        then 3
    else if 0xf0 <= s[0] < 0xf5 && Tails(s, 4) && (s[0] == 0xf0 ==> s[1] >= 0x90) && (s[0] == 0xf4 ==> s[1] < 0x90)
        then 4
    else 0
  }

  predicate ValidUtf8(s: Bytes)
    decreases |s|
  {
    s == [] || (0 < CharLen(s) <= |s| && ValidUtf8(s[CharLen(s)..]))
  }

  type Str = s: Bytes | ValidUtf8(s)

  /** `str::is_char_boundary`. */
  predicate IsCharBoundary(s: Bytes, i: nat)
    requires i <= |s|
  {
    i == 0 || i == |s| || !Tail(s[i])
  }

  lemma TailsEnd(a: Bytes, b: Bytes, n: nat)
    requires a != [] && (b == [] || !Tail(b[0])) && |a| < n
    ensures !Tails(a + b, n)
  {
    assert n <= |a + b| ==> (a + b)[|a|] == b[0];
  }

  lemma CharLenBefore(a: Bytes, b: Bytes)
    requires a != [] && (b == [] || !Tail(b[0]))
    ensures CharLen(a + b) == CharLen(a)
  {
    assert forall i | 0 <= i < |a| :: (a + b)[i] == a[i];
    forall n: nat | |a| < n ensures !Tails(a + b, n) { TailsEnd(a, b, n); }
  }

  /** A string can be cut around any ASCII character, and nothing else is cut. */
  lemma {:induction false} CutAtAscii(a: Bytes, x: Byte, b: Bytes)
    requires x < 0x80
    ensures ValidUtf8(a + [x] + b) <==> ValidUtf8(a) && ValidUtf8(b)
    decreases |a|
  {
    var s := a + [x] + b;
    if a == [] {
      assert s == [x] + b && s[1..] == b;
    } else {
      assert s == a + ([x] + b);
      CharLenBefore(a, [x] + b);
      var n := CharLen(a);
      if 0 < n <= |a| {
        assert s[n..] == a[n..] + [x] + b;
        CutAtAscii(a[n..], x, b);
      } else {
        assert n == 0 by { CharLenInside(a); }
      }
    }
  }

  lemma CharLenInside(a: Bytes)
    ensures CharLen(a) <= |a|
  {
  }

  // --- The crate of an object ------------------------------------------------------------

  function IndexOfByte(s: Bytes, x: Byte): (n: nat)
    ensures n <= |s| && x !in s[..n] && (n < |s| ==> s[n] == x)
  {
    if s == [] || s[0] == x then 0
    else
      var n := IndexOfByte(s[1..], x);
      assert s[..n + 1] == [s[0]] + s[1..][..n];
      n + 1
  }

  predicate IsHex(b: Byte) {
    0x30 <= b <= 0x39 || 0x41 <= b <= 0x46 || 0x61 <= b <= 0x66
  }

  /** `crate_of`; `None` if any of its slices were off a character boundary. */
  function TryCrateOf(member: Bytes): Option<Bytes> {
    var d := IndexOfByte(member, DASH);
    if d == |member| then Some(member)
    else if !IsCharBoundary(member, d) || !IsCharBoundary(member, d + 1) then None
    else
      var rest := member[d + 1..];
      if |rest| > 16 && rest[16] == DOT
      then
        if !IsCharBoundary(rest, 16) then None
        else if forall i | 0 <= i < 16 :: IsHex(rest[i]) then Some(member[..d])
        else Some(member)
      else Some(member)
  }

  lemma AfterAsciiIsBoundary(s: Bytes, i: nat)
    requires ValidUtf8(s) && i < |s| && s[i] < 0x80
    ensures ValidUtf8(s[..i]) && ValidUtf8(s[i + 1..]) && IsCharBoundary(s, i) && IsCharBoundary(s, i + 1)
  {
    assert s == s[..i] + [s[i]] + s[i + 1..];
    CutAtAscii(s[..i], s[i], s[i + 1..]);
    assert i + 1 < |s| ==> s[i + 1] == s[i + 1..][0] && CharLen(s[i + 1..]) > 0;
  }

  /** It never panics, and gives a string that starts the member's name. */
  lemma CrateOfIsSafe(member: Str)
    ensures TryCrateOf(member).Some? && ValidUtf8(TryCrateOf(member).value) && TryCrateOf(member).value <= member
  {
    var d := IndexOfByte(member, DASH);
    if d < |member| {
      AfterAsciiIsBoundary(member, d);
      assert member[..d] <= member;
    }
  }

  function CrateOf(member: Str): (r: Str)
    ensures r <= member
  {
    CrateOfIsSafe(member);
    TryCrateOf(member).value
  }

  predicate IsSuffix(t: Bytes) {
    |t| > 17 && t[0] == DASH && t[17] == DOT && forall i | 1 <= i < 17 :: IsHex(t[i])
  }

  lemma SuffixAfterDash(rest: Bytes)
    ensures IsSuffix([DASH] + rest) <==> |rest| > 16 && rest[16] == DOT && forall i | 0 <= i < 16 :: IsHex(rest[i])
  {
    hide IsHex;
    var t := [DASH] + rest;
    assert forall i | 0 <= i < |rest| :: t[i + 1] == rest[i];
    if IsSuffix(t) {
      forall i | 0 <= i < 16 ensures IsHex(rest[i]) { assert IsHex(t[i + 1]); }
    }
  }

  lemma CrateOfCases(member: Str)
    ensures var d := IndexOfByte(member, DASH); CrateOf(member) == if IsSuffix(member[d..]) then member[..d] else member
  {
    hide IsHex, ValidUtf8;
    CrateOfIsSafe(member);
    var d := IndexOfByte(member, DASH);
    if d < |member| {
      AfterAsciiIsBoundary(member, d);
      assert member[d..] == [DASH] + member[d + 1..];
      SuffixAfterDash(member[d + 1..]);
    }
  }

  /** A crate's object is named after it, with a hash of 16 hexadecimal digits. */
  lemma CrateOfIff(member: Str, name: Bytes)
    requires DASH !in name
    ensures name <= member && IsSuffix(member[|name|..]) ==> CrateOf(member) == name
    ensures CrateOf(member) == name ==> member == name || (name <= member && IsSuffix(member[|name|..]))
  {
    hide CrateOf, IsSuffix;
    CrateOfCases(member);
    if name <= member && IsSuffix(member[|name|..]) {
      SuffixStarts(member[|name|..]);
      assert member == name + [DASH] + member[|name| + 1..];
      FirstIs(name, DASH, member[|name| + 1..]);
    }
  }

  lemma SuffixStarts(t: Bytes)
    requires IsSuffix(t)
    ensures |t| > 0 && t[0] == DASH
  {
  }

  lemma {:induction false} FirstIs(a: Bytes, x: Byte, b: Bytes)
    requires x !in a
    ensures IndexOfByte(a + [x] + b, x) == |a|
  {
    if a == [] {
      assert (a + [x] + b)[0] == x;
    } else {
      assert (a + [x] + b)[1..] == a[1..] + [x] + b;
      FirstIs(a[1..], x, b);
    }
  }

  lemma CrateOfIdempotent(member: Str)
    ensures CrateOf(CrateOf(member)) == CrateOf(member)
  {
    hide CrateOf;
    CrateOfCases(member);
    var name := CrateOf(member);
    CrateOfCases(name);
    if name != member {
      assert name[..IndexOfByte(name, DASH)] == name;
    }
  }

  // --- The objects that are merged -------------------------------------------------------

  const PRIVATE_PREFIX: Bytes := [0x5f, 0x73, 0x71, 0x6c, 0x69, 0x74, 0x65, 0x33, 0x5f] // _sqlite3_

  /** `lastWord` is the last of the whitespace separated words of a line, if any. */
  predicate ShowsPrivate(lastWord: Str -> Option<Str>, line: Str) {
    lastWord(line).Some? && PRIVATE_PREFIX <= lastWord(line).value
  }

  /** The member a line of `nm -A` is about. */
  function MemberOf(library: Str, line: Str): (r: Option<Str>) {
    var prefix: Bytes := library + [COLON];
    if prefix <= line then
      var rest: Bytes := line[|prefix|..];
      assert ValidUtf8(rest) by { assert line == library + [COLON] + rest; CutAtAscii(library, COLON, rest); }
      var n := IndexOfByte(rest, COLON);
      assert ValidUtf8(rest[..n]) by {
        if n < |rest| { AfterAsciiIsBoundary(rest, n); } else { assert rest[..n] == rest; }
      }
      Some(rest[..n])
    else None
  }

  /** The line is about this member of the library. */
  predicate Names(library: Str, member: Str, line: Str) {
    library + [COLON] + member + [COLON] <= line
  }

  /** A name ends for the reader of a line where it has a colon. */
  lemma MemberOfLine(library: Str, member: Str, line: Str)
    requires Names(library, member, line)
    ensures var n := IndexOfByte(member, COLON);
            ValidUtf8(member[..n]) && MemberOf(library, line) == Some(member[..n])
                && (COLON !in member ==> member[..n] == member)
  {
    hide ValidUtf8;
    var n := IndexOfByte(member, COLON);
    CutIsValid(member, n);
    var name := member[..n];
    BeforeFirst(member, COLON);
    var rest := (member + [COLON])[n + 1..] + line[|library| + 1 + |member| + 1..];
    assert member + [COLON] == name + [COLON] + (member + [COLON])[n + 1..];
    var t := line[|library| + 1..];
    assert t == name + [COLON] + rest;
    FirstIs(name, COLON, rest);
    assert t[..n] == name;
  }

  lemma {:induction false} BeforeFirst(s: Bytes, x: Byte)
    ensures x !in s[..IndexOfByte(s, x)] && IndexOfByte(s, x) <= |s|
    ensures IndexOfByte(s, x) < |s| ==> s[IndexOfByte(s, x)] == x
    ensures x !in s ==> s[..IndexOfByte(s, x)] == s
  {
  }

  /** What a line is about has no colon, and neither has its crate. */
  lemma TouchedHasNoColon(lastWord: Str -> Option<Str>, library: Str, line: Str, c: Str)
    requires Touches(lastWord, library, line, c)
    ensures COLON !in c
  {
    hide ValidUtf8, ShowsPrivate;
    var m := MemberOf(library, line).value;
    BeforeFirst(line[|library| + 1..], COLON);
    CrateOfCases(m);
  }

  /** Up to a colon, a name whose crate has none gives the same crate. */
  lemma SameCrateBeforeColon(member: Str)
    requires COLON !in CrateOf(member)
    ensures var n := IndexOfByte(member, COLON); ValidUtf8(member[..n]) && CrateOf(member[..n]) == CrateOf(member)
  {
    hide ValidUtf8, IsHex, CrateOf;
    var n := IndexOfByte(member, COLON);
    BeforeFirst(member, COLON);
    CutIsValid(member, n);
    CrateOfCases(member);
    if n < |member| {
      var d := IndexOfByte(member, DASH);
      BeforeFirst(member, DASH);
      assert IsSuffix(member[d..]) && CrateOf(member) == member[..d];
      SuffixHasNoColon(member[d..], n - d);
      var cut: Str := member[..n];
      assert IsSuffix(cut[d..]) by { ShorterSuffix(member[d..], n - d); assert member[d..][..n - d] == cut[d..]; }
      SuffixStarts(cut[d..]);
      assert cut == member[..d] + [DASH] + cut[d + 1..];
      CrateOfIff(cut, member[..d]);
    }
  }

  lemma CutIsValid(s: Str, n: nat)
    requires n == IndexOfByte(s, COLON)
    ensures ValidUtf8(s[..n])
  {
    if n < |s| { AfterAsciiIsBoundary(s, n); } else { assert s[..n] == s; }
  }

  lemma SuffixHasNoColon(t: Bytes, k: int)
    requires IsSuffix(t) && k < |t| && (k >= 0 ==> t[k] == COLON)
    ensures k < 0 || k > 17
  {
  }

  lemma ShorterSuffix(t: Bytes, k: nat)
    requires IsSuffix(t) && 17 < k <= |t|
    ensures IsSuffix(t[..k])
  {
  }

  /** So a line with a private symbol touches the crate of its member exactly if that crate
      has no colon. */
  lemma NamedTouchesIff(lastWord: Str -> Option<Str>, library: Str, line: Str, member: Str)
    requires Names(library, member, line) && ShowsPrivate(lastWord, line)
    ensures Touches(lastWord, library, line, CrateOf(member)) <==> COLON !in CrateOf(member)
  {
    hide ShowsPrivate, MemberOf, CrateOf;
    MemberOfLine(library, member, line);
    if COLON !in CrateOf(member) {
      SameCrateBeforeColon(member);
    } else if Touches(lastWord, library, line, CrateOf(member)) {
      TouchedHasNoColon(lastWord, library, line, CrateOf(member));
    }
  }

  ghost predicate Touches(lastWord: Str -> Option<Str>, library: Str, line: Str, c: Str) {
    ShowsPrivate(lastWord, line) && MemberOf(library, line).Some? && CrateOf(MemberOf(library, line).value) == c
  }

  // --- A member with a colon ---------------------------------------------------------------

  const A_LIBRARY: Bytes := [0x6c]
  const A_MEMBER: Bytes := [0x61, COLON, 0x62]
  const A_LINE: Bytes := A_LIBRARY + [COLON] + A_MEMBER + [COLON, 0x20] + PRIVATE_PREFIX

  lemma {:induction false} AsciiIsValid(s: Bytes)
    requires forall i | 0 <= i < |s| :: s[i] < 0x80
    ensures ValidUtf8(s)
  {
    if s != [] { AsciiIsValid(s[1..]); }
  }

  /** A member named `a:b` with a private symbol is not merged: its line touches no crate of
      that name. */
  lemma {:induction false} ColonIsNotMerged(lastWord: Str -> Option<Str>)
    requires ValidUtf8(A_LINE) && ValidUtf8(PRIVATE_PREFIX) && lastWord(A_LINE) == Some(PRIVATE_PREFIX)
    ensures ValidUtf8(A_LIBRARY) && ValidUtf8(A_MEMBER)
    ensures Names(A_LIBRARY, A_MEMBER, A_LINE) && ShowsPrivate(lastWord, A_LINE)
    ensures !Touches(lastWord, A_LIBRARY, A_LINE, CrateOf(A_MEMBER))
  {
    hide ValidUtf8, CrateOf;
    AsciiIsValid(A_LIBRARY);
    AsciiIsValid(A_MEMBER);
    assert COLON in CrateOf(A_MEMBER) by {
      CrateOfCases(A_MEMBER);
      assert DASH !in A_MEMBER;
      BeforeFirst(A_MEMBER, DASH);
      assert A_MEMBER[1] == COLON;
    }
    NamedTouchesIff(lastWord, A_LIBRARY, A_LINE, A_MEMBER);
  }

  /** Such a listing exists. */
  lemma {:induction false} ColonLineIsValid()
    ensures ValidUtf8(A_LINE) && ValidUtf8(PRIVATE_PREFIX)
  {
    AsciiIsValid(A_LINE);
    AsciiIsValid(PRIVATE_PREFIX);
  }

  method PrivateSymbolCrates(lastWord: Str -> Option<Str>, library: Str, lines: seq<Str>) returns (crates: set<Str>)
    ensures forall c: Str :: c in crates <==> exists line :: line in lines && Touches(lastWord, library, line, c)
  {
    hide ShowsPrivate, MemberOf, CrateOf;
    crates := {};
    var i := 0;
    while i < |lines|
      invariant 0 <= i <= |lines|
      invariant forall c: Str :: c in crates <==>
                exists line :: line in lines[..i] && Touches(lastWord, library, line, c)
    {
      var line := lines[i];
      assert lines[..i + 1] == lines[..i] + [line];
      ghost var before := crates;
      if ShowsPrivate(lastWord, line) {
        var member := MemberOf(library, line);
        if member.Some? {
          crates := crates + {CrateOf(member.value)};
          assert Touches(lastWord, library, line, CrateOf(member.value));
        }
      }
      assert forall c: Str :: c in crates <==> c in before || Touches(lastWord, library, line, c);
      i := i + 1;
    }
    assert lines[..i] == lines;
  }

  function Select(members: seq<Str>, crates: set<Str>, wanted: bool): (r: seq<Str>)
    ensures forall m :: m in r <==> m in members && (CrateOf(m) in crates) == wanted
  {
    if members == [] then []
    else
      var r := Select(members[..|members| - 1], crates, wanted);
      assert members == members[..|members| - 1] + [members[|members| - 1]];
      if (CrateOf(members[|members| - 1]) in crates) == wanted then r + [members[|members| - 1]] else r
  }

  /** Deleting by name: `ar d`. */
  function Without(members: seq<Str>, gone: seq<Str>): seq<Str> {
    if members == [] then []
    else
      var r := Without(members[..|members| - 1], gone);
      if members[|members| - 1] in gone then r else r + [members[|members| - 1]]
  }

  lemma {:induction false} WithoutSelected(members: seq<Str>, all: seq<Str>, crates: set<Str>)
    requires forall m | m in members :: m in all
    ensures Without(members, Select(all, crates, true)) == Select(members, crates, false)
  {
    hide CrateOf;
    if members != [] {
      assert members == members[..|members| - 1] + [members[|members| - 1]];
      WithoutSelected(members[..|members| - 1], all, crates);
    }
  }

  lemma {:induction false} SelectPartitions(members: seq<Str>, crates: set<Str>)
    ensures multiset(members) == multiset(Select(members, crates, true)) + multiset(Select(members, crates, false))
  {
    hide CrateOf;
    if members != [] {
      assert members == members[..|members| - 1] + [members[|members| - 1]];
      SelectPartitions(members[..|members| - 1], crates);
    }
  }

  datatype Localized = Localized(merged: seq<Str>, remainder: seq<Str>) | NothingToMerge

  /** Merged are exactly the objects of the crates that touch a private symbol, so no
      crate is torn apart. An object that shows such a symbol is merged if and only if its
      crate has no colon in its name, where lines are split. What is merged and what is left
      is the archive, each object once. */
  method LocalizePrivateSymbols(lastWord: Str -> Option<Str>, library: Str, lines: seq<Str>, members: seq<Str>)
    returns (r: Localized)
    ensures r.NothingToMerge? <==>
            forall m, line | m in members && line in lines :: !Touches(lastWord, library, line, CrateOf(m))
    ensures r.Localized? ==>
              && (forall m :: m in r.merged <==>
                  m in members && exists line :: line in lines && Touches(lastWord, library, line, CrateOf(m)))
              && (forall a, b | a in r.merged && b in members && CrateOf(a) == CrateOf(b) :: b in r.merged)
              && (forall m, line | && m in members && line in lines
                                   && Names(library, m, line) && ShowsPrivate(lastWord, line) ::
                    m in r.merged <==> COLON !in CrateOf(m))
              && multiset(members) == multiset(r.merged) + multiset(r.remainder)
              && (forall m | m in r.merged :: m !in r.remainder)
  {
    hide Touches, CrateOf, Names, ShowsPrivate;
    var crates := PrivateSymbolCrates(lastWord, library, lines);
    var merged := Select(members, crates, true);
    forall m, line | m in members && line in lines && Names(library, m, line) && ShowsPrivate(lastWord, line)
      ensures CrateOf(m) in crates <==> COLON !in CrateOf(m)
    {
      NamedTouchesIff(lastWord, library, line, m);
      if other :| other in lines && Touches(lastWord, library, other, CrateOf(m)) {
        TouchedHasNoColon(lastWord, library, other, CrateOf(m));
      }
    }
    if merged == [] {
      r := NothingToMerge;
      forall m, line | m in members && line in lines ensures !Touches(lastWord, library, line, CrateOf(m)) {
        assert m !in merged;
      }
    } else {
      assert merged[0] in merged;
      var remainder := Without(members, merged);
      WithoutSelected(members, members, crates);
      SelectPartitions(members, crates);
      r := Localized(merged, remainder);
    }
  }

  // --- Grouping the libraries by platform ------------------------------------------------

  datatype Target = Target(platform: string, path: string)

  function PathsFor(targets: seq<Target>, platform: string): seq<string> {
    if targets == [] then []
    else
      var r, t := PathsFor(targets[..|targets| - 1], platform), targets[|targets| - 1];
      if t.platform == platform then r + [t.path] else r
  }

  /** The indices of the targets that a platform has, in order. */
  predicate AreTargets(targets: seq<Target>, platform: string, ix: seq<nat>) {
    && (forall a, b | 0 <= a < b < |ix| :: ix[a] < ix[b])
    && (forall a | 0 <= a < |ix| :: ix[a] < |targets|)
    && (forall i | 0 <= i < |targets| :: i in ix <==> targets[i].platform == platform)
  }

  predicate ArePaths(targets: seq<Target>, ix: seq<nat>, paths: seq<string>) {
    |paths| == |ix| && forall a | 0 <= a < |ix| :: ix[a] < |targets| && paths[a] == targets[ix[a]].path
  }

  lemma OneMoreTarget(targets: seq<Target>, t: Target, platform: string, ix: seq<nat>, paths: seq<string>)
    requires AreTargets(targets, platform, ix) && ArePaths(targets, ix, paths)
    ensures t.platform == platform ==>
              AreTargets(targets + [t], platform, ix + [|targets|])
                  && ArePaths(targets + [t], ix + [|targets|], paths + [t.path])
    ensures t.platform != platform ==> AreTargets(targets + [t], platform, ix) && ArePaths(targets + [t], ix, paths)
  {
    var all := targets + [t];
    assert forall i | 0 <= i < |targets| :: all[i] == targets[i];
    assert |targets| !in ix;
  }

  /** So every target's path is under its platform, once, and in order. */
  lemma {:induction false} PathsAre(targets: seq<Target>, platform: string) returns (ix: seq<nat>)
    ensures AreTargets(targets, platform, ix) && ArePaths(targets, ix, PathsFor(targets, platform))
  {
    if targets == [] {
      ix := [];
    } else {
      hide AreTargets, ArePaths;
      var front, last := targets[..|targets| - 1], targets[|targets| - 1];
      assert targets == front + [last];
      ix := PathsAre(front, platform);
      OneMoreTarget(front, last, platform, ix, PathsFor(front, platform));
      if last.platform == platform { ix := ix + [|front|]; }
    }
  }

  /** Each platform gets the libraries of its targets, in order, and no other does. */
  method GroupByPlatform(targets: seq<Target>) returns (paths: map<string, seq<string>>)
    ensures forall p ::
            if p in paths then paths[p] == PathsFor(targets, p) && paths[p] != [] else PathsFor(targets, p) == []
  {
    paths := map[];
    var i := 0;
    while i < |targets|
      invariant 0 <= i <= |targets|
      invariant forall p ::
        if p in paths then paths[p] == PathsFor(targets[..i], p) && paths[p] != [] else PathsFor(targets[..i], p) == []
    {
      var t := targets[i];
      assert targets[..i + 1][..i] == targets[..i];
      if t.platform !in paths {
        paths := paths[t.platform := []];
      }
      paths := paths[t.platform := paths[t.platform] + [t.path]];
      i := i + 1;
    }
    assert targets[..i] == targets;
  }
}
