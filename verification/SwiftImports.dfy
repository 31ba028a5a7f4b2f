/** Rewriting the import guards of generated Swift files, so that every file imports
    the one consolidated module. */
module SwiftImports {
  import opened Wrappers

  const TEST := "if canImport("
  const OPENING := "#" + TEST
  const BETWEEN := ")\nimport "
  const ENDIF := "#endif"
  const CLOSING := "\n" + ENDIF
  const MODULE := "MatrixSDK"

  /** The guard that imports MatrixSDKFFI. */
  const GUARD := GuardFor(MODULE, MODULE)

  /** What the proofs need of the regular expression class `\w`, which is a Unicode
      property: it has the letters of the module's name and none of the punctuation
      around it. */
  predicate WordClass(word: char -> bool) {
    (forall c | c in MODULE + "FFI" :: word(c)) && !word(')') && !word('\n') && !word('#')
  }

  predicate AllWord(word: char -> bool, w: string) {
    forall c | c in w :: word(c)
  }

  /** What the regular expression matches. */
  function GuardFor(w1: string, w2: string): string {
    OPENING + (w1 + "FFI" + (BETWEEN + (w2 + "FFI" + CLOSING)))
  }

  predicate NamesModules(word: char -> bool, w1: string, w2: string) {
    w1 != "" && w2 != "" && AllWord(word, w1) && AllWord(word, w2)
  }

  ghost predicate StartsWithGuard(word: char -> bool, s: string, rest: string) {
    exists w1, w2 :: NamesModules(word, w1, w2) && s == GuardFor(w1, w2) + rest
  }

  // --- Matching ----------------------------------------------------------------------

  function Skip(lit: string, s: string): Option<string> {
    if lit <= s then Some(s[|lit|..]) else None
  }

  /** The length of the longest run of word characters at the start. */
  function Run(word: char -> bool, s: string): (n: nat)
    ensures n <= |s| && AllWord(word, s[..n]) && (n < |s| ==> !word(s[n]))
  {
    if s == "" || !word(s[0]) then 0
    else
      var n := Run(word, s[1..]);
      assert s[..n + 1] == [s[0]] + s[1..][..n];
      n + 1
  }

  function SkipName(word: char -> bool, s: string): Option<string> {
    var n := Run(word, s);
    if n >= 4 && s[n - 3..n] == "FFI" then Some(s[n..]) else None
  }

  /** Match at the start of the text, and give the text after the match. */
  function Match(word: char -> bool, s: string): Option<string> {
    var r1 := Skip(OPENING, s);
    var r2 := if r1.None? then None else SkipName(word, r1.value);
    var r3 := if r2.None? then None else Skip(BETWEEN, r2.value);
    var r4 := if r3.None? then None else SkipName(word, r3.value);
    if r4.None? then None else Skip(CLOSING, r4.value)
  }

  lemma {:induction false} RunIs(word: char -> bool, w: string, rest: string)
    requires AllWord(word, w) && rest != "" && !word(rest[0])
    ensures Run(word, w + rest) == |w|
  {
    if w == "" {
      assert w + rest == rest;
    } else {
      assert word(w[0]) && (w + rest)[1..] == w[1..] + rest;
      RunIs(word, w[1..], rest);
    }
  }

  lemma SkipNameIs(word: char -> bool, w: string, rest: string)
    requires WordClass(word) && AllWord(word, w) && w != "" && rest != "" && !word(rest[0])
    ensures SkipName(word, w + "FFI" + rest) == Some(rest)
  {
    assert AllWord(word, "FFI");
    RunIs(word, w + "FFI", rest);
    var s := w + "FFI" + rest;
    assert s[|w|..|w| + 3] == "FFI" && s[|w| + 3..] == rest;
  }

  lemma SkipIs(lit: string, rest: string)
    ensures Skip(lit, lit + rest) == Some(rest)
  {
  }

  lemma SkippedName(word: char -> bool, s: string) returns (w: string)
    requires SkipName(word, s).Some?
    ensures w != "" && AllWord(word, w) && s == w + "FFI" + SkipName(word, s).value
  {
    var n := Run(word, s);
    w := s[..n - 3];
    assert s == s[..n - 3] + s[n - 3..n] + s[n..];
    assert forall c | c in w :: c in s[..n];
  }

  lemma Skipped(lit: string, s: string)
    requires Skip(lit, s).Some?
    ensures s == lit + Skip(lit, s).value
  {
  }

  lemma MatchesGuard(word: char -> bool, w1: string, w2: string, rest: string)
    requires WordClass(word) && NamesModules(word, w1, w2)
    ensures Match(word, GuardFor(w1, w2) + rest) == Some(rest)
  {
    hide SkipName;
    var t4 := CLOSING + rest;
    var t3 := w2 + "FFI" + t4;
    var t2 := BETWEEN + t3;
    var t1 := w1 + "FFI" + t2;
    Regrouped(w1, w2, rest);
    SkipIs(OPENING, t1);
    SkipNameIs(word, w1, t2);
    SkipIs(BETWEEN, t3);
    SkipNameIs(word, w2, t4);
    SkipIs(CLOSING, rest);
  }

  lemma Regrouped(w1: string, w2: string, rest: string)
    ensures GuardFor(w1, w2) + rest == OPENING + (w1 + "FFI" + (BETWEEN + (w2 + "FFI" + (CLOSING + rest))))
  {
  }

  lemma MatchGives(word: char -> bool, s: string) returns (w1: string, w2: string)
    requires Match(word, s).Some?
    ensures NamesModules(word, w1, w2) && s == GuardFor(w1, w2) + Match(word, s).value
  {
    hide SkipName, AllWord, GuardFor;
    var t1 := Skip(OPENING, s).value;
    Skipped(OPENING, s);
    w1 := SkippedName(word, t1);
    var t2 := SkipName(word, t1).value;
    Skipped(BETWEEN, t2);
    var t3 := Skip(BETWEEN, t2).value;
    w2 := SkippedName(word, t3);
    Skipped(CLOSING, SkipName(word, t3).value);
    Regrouped(w1, w2, Match(word, s).value);
  }

  /** The matcher finds exactly the texts of the regular expression, and the match is
      never ambiguous. */
  lemma MatchIff(word: char -> bool, s: string, rest: string)
    requires WordClass(word)
    ensures Match(word, s) == Some(rest) <==> StartsWithGuard(word, s, rest)
  {
    hide Match, GuardFor, NamesModules;
    if Match(word, s) == Some(rest) {
      var w1, w2 := MatchGives(word, s);
    }
    if StartsWithGuard(word, s, rest) {
      var w1, w2 :| NamesModules(word, w1, w2) && s == GuardFor(w1, w2) + rest;
      MatchesGuard(word, w1, w2, rest);
    }
  }

  // --- Replacing -----------------------------------------------------------------------

  lemma MatchShortens(word: char -> bool, s: string)
    requires Match(word, s).Some?
    ensures |Match(word, s).value| < |s|
  {
  }

  /** `replace_all`: leftmost matches, from left to right. */
  function Rewrite(word: char -> bool, s: string): string
    decreases |s|
  {
    if s == "" then ""
    else if Match(word, s).Some? then MatchShortens(word, s); GUARD + Rewrite(word, Match(word, s).value)
    else [s[0]] + Rewrite(word, s[1..])
  }

  /** No guard opens in the text, not even at its very end. */
  predicate NoOpening(x: string) {
    forall i | 0 <= i < |x| && x[i] == '#' :: i + 1 < |x| && x[i + 1] != 'i'
  }

  lemma GuardTail(w1: string, w2: string, x: string)
    requires x == TEST + w1 + "FFI" + BETWEEN + w2 + "FFI" + "\n"
    ensures GuardFor(w1, w2)[1..] == x + ENDIF
  {
    assert OPENING[1..] == TEST;
  }

  lemma EndsWithEndif(x: string, end: string)
    requires '#' !in x && end == "#endif"
    ensures NoOpening(x + end)
  {
    assert end[0] == '#' && end[1] == 'e';
  }

  lemma NoOpeningInside(word: char -> bool, w1: string, w2: string)
    requires WordClass(word) && NamesModules(word, w1, w2)
    ensures NoOpening(GuardFor(w1, w2)[1..])
  {
    var x := TEST + w1 + "FFI" + BETWEEN + w2 + "FFI" + "\n";
    assert '#' !in w1 && '#' !in w2;
    assert '#' !in x;
    GuardTail(w1, w2, x);
    EndsWithEndif(x, ENDIF);
  }

  lemma GuardOpens(rest: string)
    ensures |GUARD + rest| >= 2 && (GUARD + rest)[0] == '#' && (GUARD + rest)[1] == 'i'
  {
    GuardNotEmpty(MODULE, MODULE);
  }

  lemma NotReplaced(word: char -> bool, t: string, x: string)
    requires NoOpening(x) && x != "" && x <= Rewrite(word, t)
    ensures t != "" && Match(word, t).None?
  {
    hide Match;
    if t != "" && Match(word, t).Some? {
      MatchShortens(word, t);
      GuardOpens(Rewrite(word, Match(word, t).value));
      assert false;
    }
  }

  lemma {:induction false} KeptText(word: char -> bool, t: string, x: string)
    requires NoOpening(x) && x <= Rewrite(word, t)
    ensures x <= t
    decreases |t|
  {
    hide Match;
    if x != "" {
      NotReplaced(word, t, x);
      assert x[1..] <= Rewrite(word, t[1..]);
      KeptText(word, t[1..], x[1..]);
      assert x == [t[0]] + x[1..] && t == [t[0]] + t[1..];
    }
  }

  /** Where nothing matched, nothing matches afterwards either. */
  lemma NoNewMatch(word: char -> bool, s: string)
    requires WordClass(word) && s != "" && Match(word, s).None?
    ensures Match(word, [s[0]] + Rewrite(word, s[1..])).None?
  {
    hide Match, Rewrite, GuardFor, NoOpening, NamesModules;
    var out := [s[0]] + Rewrite(word, s[1..]);
    if Match(word, out).Some? {
      MatchIff(word, out, Match(word, out).value);
      var w1, w2 :| NamesModules(word, w1, w2) && out == GuardFor(w1, w2) + Match(word, out).value;
      var m := GuardFor(w1, w2);
      NoOpeningInside(word, w1, w2);
      assert |m| > 0 by { GuardNotEmpty(w1, w2); }
      assert m[1..] <= Rewrite(word, s[1..]) by {
        assert out[1..] == Rewrite(word, s[1..])
               && (m + Match(word, out).value)[1..] == m[1..] + Match(word, out).value;
      }
      KeptText(word, s[1..], m[1..]);
      assert m[0] == out[0] == s[0];
      assert m <= s by { assert m == [s[0]] + m[1..] && s == [s[0]] + s[1..]; }
      assert s == m + s[|m|..];
      MatchesGuard(word, w1, w2, s[|m|..]);
    }
  }

  lemma GuardNotEmpty(w1: string, w2: string)
    ensures |GuardFor(w1, w2)| >= 2 && GuardFor(w1, w2)[0] == '#' && GuardFor(w1, w2)[1] == 'i'
  {
  }

  lemma ModuleNamed(word: char -> bool)
    requires WordClass(word)
    ensures NamesModules(word, MODULE, MODULE)
  {
    assert forall c | c in MODULE :: c in MODULE + "FFI";
  }

  lemma GuardMatches(word: char -> bool, rest: string)
    requires WordClass(word)
    ensures Match(word, GUARD + rest) == Some(rest)
  {
    hide Match;
    ModuleNamed(word);
    MatchesGuard(word, MODULE, MODULE, rest);
  }

  /** A second pass changes nothing. */
  lemma {:induction false} RewriteIdempotent(word: char -> bool, s: string)
    requires WordClass(word)
    ensures Rewrite(word, Rewrite(word, s)) == Rewrite(word, s)
    decreases |s|
  {
    hide Match;
    if s != "" {
      if Match(word, s).Some? {
        MatchShortens(word, s);
        var rest := Match(word, s).value;
        RewriteIdempotent(word, rest);
        GuardMatches(word, Rewrite(word, rest));
      } else {
        RewriteIdempotent(word, s[1..]);
        NoNewMatch(word, s);
        var out := [s[0]] + Rewrite(word, s[1..]);
        assert out[1..] == Rewrite(word, s[1..]);
      }
    }
  }

  lemma MatchOpens(word: char -> bool, s: string)
    requires Match(word, s).Some?
    ensures |s| >= 2 && s[0] == '#' && s[1] == 'i'
  {
    assert s[0] == OPENING[0] && s[1] == OPENING[1];
  }

  /** Every guard left, wherever it is, is the one for the consolidated module. */
  lemma {:induction false} GuardsLeft(word: char -> bool, s: string, p: nat)
    requires WordClass(word) && p <= |Rewrite(word, s)| && Match(word, Rewrite(word, s)[p..]).Some?
    ensures GUARD <= Rewrite(word, s)[p..]
    decreases |s|
  {
    hide Match, GuardFor;
    var out := Rewrite(word, s);
    MatchOpens(word, out[p..]);
    if Match(word, s).Some? {
      MatchShortens(word, s);
      var rest := Match(word, s).value;
      if 0 < p < |GUARD| {
        assert out[p] == '#' && out[p + 1] == 'i';
        OneOpening(word, Rewrite(word, rest), p);
      } else if p > 0 {
        assert out[p..] == Rewrite(word, rest)[p - |GUARD|..];
        GuardsLeft(word, rest, p - |GUARD|);
      }
    } else if p == 0 {
      assert out[p..] == out;
      NoNewMatch(word, s);
    } else {
      assert out[p..] == Rewrite(word, s[1..])[p - 1..];
      GuardsLeft(word, s[1..], p - 1);
    }
  }

  lemma OneOpening(word: char -> bool, rest: string, p: nat)
    requires WordClass(word) && 0 < p < |GUARD|
    ensures p + 1 >= |GUARD + rest| || (GUARD + rest)[p] != '#' || (GUARD + rest)[p + 1] != 'i'
  {
    hide GuardFor;
    ModuleNamed(word);
    NoOpeningInside(word, MODULE, MODULE);
    assert (GUARD + rest)[p] == GUARD[1..][p - 1];
    if (GUARD + rest)[p] == '#' { assert (GUARD + rest)[p + 1] == GUARD[1..][p]; }
  }

  /** In any text two matches never overlap. */
  lemma MatchesNeverOverlap(word: char -> bool, s: string, p: nat, q: nat)
    requires WordClass(word) && p < q <= |s|
    requires Match(word, s[p..]).Some? && Match(word, s[q..]).Some?
    ensures |s| - |Match(word, s[p..]).value| <= q
  {
    hide Match, GuardFor, NamesModules;
    var rest := Match(word, s[p..]).value;
    MatchIff(word, s[p..], rest);
    var w1, w2 :| NamesModules(word, w1, w2) && s[p..] == GuardFor(w1, w2) + rest;
    var m := GuardFor(w1, w2);
    NoOpeningInside(word, w1, w2);
    GuardNotEmpty(w1, w2);
    MatchOpens(word, s[q..]);
    assert |s| - p == |m| + |rest|;
    assert s[p..][q - p] == '#' && s[p..][q - p + 1] == 'i';
  }

  // --- What is kept ----------------------------------------------------------------------

  /** Texts and matches in turns: us[0] ms[0] us[1] ms[1] … us[|ms|]. */
  function Weave(us: seq<string>, ms: seq<string>): string
    requires |us| == |ms| + 1
  {
    if ms == [] then us[0] else us[0] + ms[0] + Weave(us[1..], ms[1..])
  }

  ghost predicate IsMatch(word: char -> bool, m: string) {
    StartsWithGuard(word, m, "")
  }

  /** The text between matches is kept, each match becomes the new guard. */
  lemma {:induction false} RewriteKeeps(word: char -> bool, s: string) returns (us: seq<string>, ms: seq<string>)
    requires WordClass(word)
    ensures |us| == |ms| + 1 && Weave(us, ms) == s && (forall m | m in ms :: IsMatch(word, m))
    ensures Weave(us, seq(|ms|, _ => GUARD)) == Rewrite(word, s)
    decreases |s|
  {
    hide Match, IsMatch;
    if s == "" {
      us, ms := [""], [];
    } else if Match(word, s).Some? {
      MatchShortens(word, s);
      var rest := Match(word, s).value;
      var m := MatchedText(word, s);
      us, ms := RewriteKeeps(word, rest);
      WeaveMatch(us, ms, m, "");
      WeaveMatch(us, seq(|ms|, _ => GUARD), GUARD, "");
      us, ms := [""] + us, [m] + ms;
      assert seq(|ms|, _ => GUARD) == [GUARD] + seq(|ms| - 1, _ => GUARD);
    } else {
      us, ms := RewriteKeeps(word, s[1..]);
      WeaveText(us, ms, s[0]);
      WeaveText(us, seq(|ms|, _ => GUARD), s[0]);
      us := us[0 := [s[0]] + us[0]];
    }
  }

  lemma MatchedText(word: char -> bool, s: string) returns (m: string)
    requires WordClass(word) && Match(word, s).Some?
    ensures IsMatch(word, m) && s == m + Match(word, s).value
  {
    var rest := Match(word, s).value;
    MatchIff(word, s, rest);
    var w1, w2 :| NamesModules(word, w1, w2) && s == GuardFor(w1, w2) + rest;
    m := GuardFor(w1, w2);
    assert m == GuardFor(w1, w2) + "";
  }

  lemma {:induction false} WeaveMatch(us: seq<string>, ms: seq<string>, m: string, nothing: string)
    requires |us| == |ms| + 1 && |nothing| == 0
    ensures Weave([nothing] + us, [m] + ms) == m + Weave(us, ms)
  {
    var us', ms' := [nothing] + us, [m] + ms;
    assert us'[0] == nothing && us'[1..] == us && ms'[0] == m && ms'[1..] == ms;
    assert nothing + m == m;
  }

  lemma WeaveText(us: seq<string>, ms: seq<string>, c: char)
    requires |us| == |ms| + 1
    ensures Weave(us[0 := [c] + us[0]], ms) == [c] + Weave(us, ms)
  {
    assert us[0 := [c] + us[0]][1..] == us[1..];
  }

  // --- Files -------------------------------------------------------------------------------

  datatype File = File(extension: Option<string>, contents: string)

  function Updated(word: char -> bool, f: File): File {
    if f.extension == Some("swift") then f.(contents := Rewrite(word, f.contents)) else f
  }

  /** A pass over a directory. Swift files end up rewritten, other files are left
      alone, and a file is written only if that changes it. */
  method UpdateSwiftModuleImports(word: char -> bool, files: seq<File>) returns (files': seq<File>, written: set<nat>)
    ensures files' == seq(|files|, i requires 0 <= i < |files| => Updated(word, files[i]))
    ensures |files'| == |files| && forall i | 0 <= i < |files| ::
              if files[i].extension == Some("swift")
                  then files'[i] == files[i].(contents := Rewrite(word, files[i].contents))
              else files'[i] == files[i]
    ensures written == set i: nat | i < |files| && files'[i] != files[i]
  {
    files', written := files, {};
    var i := 0;
    while i < |files|
      invariant 0 <= i <= |files| == |files'|
      invariant forall j | 0 <= j < i :: files'[j] == Updated(word, files[j])
      invariant forall j | i <= j < |files| :: files'[j] == files[j]
      invariant written == set j: nat | j < i && files'[j] != files[j]
    {
      var f := files[i];
      if f.extension == Some("swift") {
        var contents := Rewrite(word, f.contents);
        if contents != f.contents {
          files', written := files'[i := f.(contents := contents)], written + {i};
        }
      }
      i := i + 1;
    }
  }

  method UpdateTwice(word: char -> bool, files: seq<File>)
    returns (once: seq<File>, twice: seq<File>, written: set<nat>)
    requires WordClass(word)
    ensures twice == once && written == {}
  {
    var first;
    once, first := UpdateSwiftModuleImports(word, files);
    twice, written := UpdateSwiftModuleImports(word, once);
    forall i | 0 <= i < |files| ensures twice[i] == once[i] { RewriteIdempotent(word, files[i].contents); }
  }
}
