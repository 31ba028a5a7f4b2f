/** Migrating a legacy crypto store: sessions are converted one by one, with progress
    reports, and written to the new store in three steps. Parsing, decoding and the
    store itself are given by `Env`. */
module Migration {
  import opened Wrappers

  datatype Env<!P, !G, S, H> = Env(
    opens: bool,                  // the store can be opened
    userId: string -> bool,       // a user identifier parses
    account: bool,                // the account is decoded
    keys: bool,                   // the identity keys are decoded
    session: P -> Option<S>,      // a session is decoded
    group: G -> Option<H>,        // a group session is decoded
    backupKey: bool,              // the recovery key, if any, is decoded
    secrets: bool,                // the cross-signing secrets are imported
    roomId: string -> bool,       // a room identifier parses
    savesUsers: bool, savesAccount: bool, savesChanges: bool)

  datatype Data<P, G, R> =
    Data(user: string, sessions: seq<P>, groups: seq<G>, tracked: seq<string>, rooms: map<string, R>)

  datatype Write<S, H, R> =
    | TrackedUsers(users: seq<string>)
    | Account
    | Changes(sessions: seq<S>, groups: seq<H>, rooms: map<string, R>)

  /** `as i32`. */
  function AsI32(n: nat): int {
    var w := n % 0x1_0000_0000;
    if w < 0x8000_0000 then w else w - 0x1_0000_0000
  }

  datatype Report = Report(progress: int, total: int)

  function Reported(n: nat, total: nat): Report {
    Report(AsI32(n), AsI32(total))
  }

  // --- What is reported ------------------------------------------------------------------

  /** from + 1, …, from + n. */
  function Count(from: nat, n: nat): seq<nat> {
    seq(n, i => from + 1 + i)
  }

  function Reports(steps: seq<nat>, total: nat): seq<Report> {
    seq(|steps|, i requires 0 <= i < |steps| => Reported(steps[i], total))
  }

  lemma ReportsMore(steps: seq<nat>, n: nat, total: nat)
    ensures Reports(steps, total) + [Reported(n, total)] == Reports(steps + [n], total)
  {
  }

  lemma TwoReports(total: nat)
    ensures [] + [Reported(1, total)] + [Reported(2, total)] == Reports([1, 2], total)
  {
  }

  lemma ThreeReports(before: seq<Report>, total: nat)
    ensures before + [Reported(3, total)] + [Reported(4, total)] + [Reported(5, total)] ==
            before + Reports([3, 4, 5], total)
  {
  }

  lemma ReportsLength(steps: seq<nat>, total: nat)
    ensures |Reports(steps, total)| == |steps|
  {
  }

  lemma CountLength(from: nat, n: nat)
    ensures |Count(from, n)| == n
  {
  }

  lemma ReportsPrefix(from: nat, i: nat, n: nat, total: nat)
    requires i <= n
    ensures Reports(Count(from, i), total) <= Reports(Count(from, n), total)
  {
  }

  lemma ReportsConcat(a: seq<nat>, b: seq<nat>, total: nat)
    ensures Reports(a, total) + Reports(b, total) == Reports(a + b, total)
  {
  }

  /** The counter is passed by value, so the steps after the sessions repeat numbers. */
  function FullSteps(n: nat): seq<nat> {
    [1, 2] + Count(2, n) + [3, 4, 5]
  }

  function SessionSteps(n: nat): seq<nat> {
    Count(0, n) + [1]
  }

  predicate Increasing(s: seq<nat>) {
    forall i, j | 0 <= i < j < |s| :: s[i] < s[j]
  }

  /** As many reports as steps, none out of range, but in increasing order, and so up to
      the total, exactly when there are no sessions at all. */
  lemma FullStepsAre(n: nat)
    ensures |FullSteps(n)| == 5 + n && forall k | k in FullSteps(n) :: 1 <= k <= 5 + n
    ensures Increasing(FullSteps(n)) <==> n == 0
    ensures FullSteps(n)[4 + n] == 5 + n <==> n == 0
  {
    var s := FullSteps(n);
    assert s[2 + n] == 3 && s[4 + n] == 5;
    if n > 0 { assert s[2] == 3; }
  }

  lemma SessionStepsAre(n: nat)
    ensures |SessionSteps(n)| == 1 + n && forall k | k in SessionSteps(n) :: 1 <= k <= 1 + n
    ensures Increasing(SessionSteps(n)) <==> n == 0
  {
    var s := SessionSteps(n);
    assert s[n] == 1;
    if n > 0 { assert s[0] == 1; }
  }

  /** The cast is harmless below 2^31 steps, and only there. */
  lemma ReportedIff(n: nat, total: nat)
    requires n <= total
    ensures Reported(n, total) == Report(n, total) <==> total < 0x8000_0000
  {
  }

  // --- What is converted -----------------------------------------------------------------

  function Known(parses: string -> bool, users: seq<string>): (r: seq<string>)
    ensures forall u :: u in r <==> u in users && parses(u)
  {
    if users == [] then []
    else
      var front, u := Known(parses, users[..|users| - 1]), users[|users| - 1];
      assert users == users[..|users| - 1] + [u];
      if parses(u) then front + [u] else front
  }

  /** Exactly the users that parse, in order. */
  lemma {:induction false} KnownConcat(parses: string -> bool, a: seq<string>, b: seq<string>)
    ensures Known(parses, a + b) == Known(parses, a) + Known(parses, b)
    ensures forall u :: Known(parses, [u]) == if parses(u) then [u] else []
    decreases |b|
  {
    forall u ensures Known(parses, [u]) == if parses(u) then [u] else [] { assert [u][..0] == []; }
    if b == [] {
      assert a + b == a;
    } else {
      assert (a + b)[..|a + b| - 1] == a + b[..|b| - 1];
      KnownConcat(parses, a, b[..|b| - 1]);
    }
  }

  /** Since `before`, the next `n` numbers have been reported. */
  ghost predicate UpTo(reports: seq<Report>, before: seq<Report>, from: nat, n: nat, total: nat) {
    reports == before + Reports(Count(from, n), total)
  }

  /** The loop over pickles, which the source has once for each kind of session. */
  method Collect<A, B>(f: A -> Option<B>, pickles: seq<A>, from: nat, total: nat, before: seq<Report>)
    returns (sessions: Option<seq<B>>, reports: seq<Report>)
    ensures sessions == All(f, pickles)
    ensures sessions.Some? ==> UpTo(reports, before, from, |pickles|, total)
    ensures sessions.None? ==> exists i :: && 0 <= i < |pickles| && f(pickles[i]).None? && All(f, pickles[..i]).Some?
                                           && UpTo(reports, before, from, i, total)
  {
    var collected: seq<B> := [];
    var processed := from;
    reports := before;
    var i := 0;
    while i < |pickles|
      invariant 0 <= i <= |pickles| && processed == from + i
      invariant All(f, pickles[..i]) == Some(collected)
      invariant reports == before + Reports(Count(from, i), total)
    {
      assert pickles[..i + 1][..i] == pickles[..i];
      match f(pickles[i]) {
        case None =>
          assert All(f, pickles).None?;
          return None, reports;
        case Some(session) => collected := collected + [session];
      }
      processed := processed + 1;
      reports := reports + [Reported(processed, total)];
      assert Count(from, i + 1) == Count(from, i) + [processed];
      ReportsMore(Count(from, i), processed, total);
      i := i + 1;
    }
    assert pickles[..i] == pickles;
    sessions := Some(collected);
  }

  method CollectSessions<P, G, S, H>(env: Env<P, G, S, H>, sessions: seq<P>, groups: seq<G>, from: nat, total: nat,
                                     before: seq<Report>)
    returns (r: Option<(seq<S>, seq<H>)>, reports: seq<Report>)
    ensures r.Some? <==> All(env.session, sessions).Some? && All(env.group, groups).Some?
    ensures r.Some? ==> Some(r.value.0) == All(env.session, sessions) && Some(r.value.1) == All(env.group, groups)
    ensures before <= reports <= before + Reports(Count(from, |sessions| + |groups|), total)
    ensures r.Some? ==> reports == before + Reports(Count(from, |sessions| + |groups|), total)
  {
    hide UpTo, Reports, Count;
    ghost var n := |sessions| + |groups|;
    var s, r1 := Collect(env.session, sessions, from, total, before);
    if s.None? {
      ghost var i :| 0 <= i < |sessions| && UpTo(r1, before, from, i, total);
      UpToPrefix(r1, before, from, i, n, total);
      return None, r1;
    }
    var g, r2 := Collect(env.group, groups, from + |sessions|, total, r1);
    reports := r2;
    if g.None? {
      ghost var i :| 0 <= i < |groups| && UpTo(r2, r1, from + |sessions|, i, total);
      UpToMore(r2, r1, before, from, |sessions|, i, total);
      UpToPrefix(r2, before, from, |sessions| + i, n, total);
      return None, r2;
    }
    UpToMore(r2, r1, before, from, |sessions|, |groups|, total);
    UpToPrefix(r2, before, from, n, n, total);
    r := Some((s.value, g.value));
  }

  lemma UpToPrefix(reports: seq<Report>, before: seq<Report>, from: nat, i: nat, n: nat, total: nat)
    requires UpTo(reports, before, from, i, total) && i <= n
    ensures before <= reports <= before + Reports(Count(from, n), total)
    ensures i == n ==> reports == before + Reports(Count(from, n), total)
  {
    ReportsPrefix(from, i, n, total);
  }

  lemma UpToMore(reports: seq<Report>, mid: seq<Report>, before: seq<Report>, from: nat, a: nat, b: nat, total: nat)
    requires UpTo(mid, before, from, a, total) && UpTo(reports, mid, from + a, b, total)
    ensures UpTo(reports, before, from, a + b, total)
  {
    hide Reports;
    assert Count(from, a + b) == Count(from, a) + Count(from + a, b);
    ReportsConcat(Count(from, a), Count(from + a, b), total);
    assert before + Reports(Count(from, a), total) + Reports(Count(from + a, b), total)
        == before + (Reports(Count(from, a), total) + Reports(Count(from + a, b), total));
  }

  // --- The migrations --------------------------------------------------------------------

  ghost predicate Succeeds<P, G, S, H, R>(env: Env<P, G, S, H>, data: Data<P, G, R>) {
    && env.opens && env.userId(data.user) && env.account
    && All(env.session, data.sessions).Some? && All(env.group, data.groups).Some?
    && env.backupKey && env.secrets && env.savesUsers
    && (forall r | r in data.rooms :: env.roomId(r))
    && env.savesAccount && env.savesChanges
  }

  /** Everything a complete migration writes, in order. */
  ghost function Writes<P, G, S, H, R>(env: Env<P, G, S, H>, data: Data<P, G, R>): seq<Write<S, H, R>>
    requires All(env.session, data.sessions).Some? && All(env.group, data.groups).Some?
  {
    [TrackedUsers(Known(env.userId, data.tracked)), Account,
     Changes(All(env.session, data.sessions).value, All(env.group, data.groups).value, data.rooms)]
  }

  /** Everything is decoded. */
  ghost predicate Decodes<P, G, S, H, R>(env: Env<P, G, S, H>, data: Data<P, G, R>) {
    && env.opens && env.userId(data.user) && env.account
    && All(env.session, data.sessions).Some? && All(env.group, data.groups).Some? && env.backupKey && env.secrets
  }

  /** How far a migration gets: what has been reported and written tells which step failed. */
  ghost predicate GetsTo<P, G, S, H, R>(env: Env<P, G, S, H>, data: Data<P, G, R>, reports: nat, writes: nat) {
    var n := |data.sessions| + |data.groups|;
    && (reports >= 1 <==> env.opens)
    && (reports >= 2 <==> env.opens && env.userId(data.user) && env.account)
    && (reports >= 3 + n <==> Decodes(env, data))
    && (reports >= 4 + n <==> Decodes(env, data) && env.savesUsers)
    && (reports >= 5 + n <==> Succeeds(env, data))
    && (writes >= 1 <==> Decodes(env, data) && env.savesUsers)
    && (writes >= 2 <==>
        Decodes(env, data) && env.savesUsers && (forall r | r in data.rooms :: env.roomId(r)) && env.savesAccount)
    && (writes >= 3 <==> Succeeds(env, data))
  }

  /** A migration that fails has written only a beginning of that, and nothing at all
      unless every session was decoded. */
  method MigrateData<P, G, S, H, R>(env: Env<P, G, S, H>, data: Data<P, G, R>)
    returns (ok: bool, reports: seq<Report>, writes: seq<Write<S, H, R>>)
    ensures ok <==> Succeeds(env, data)
    ensures var n := |data.sessions| + |data.groups|;
            reports <= Reports(FullSteps(n), 5 + n) && (ok ==> reports == Reports(FullSteps(n), 5 + n))
    ensures writes != [] ==> All(env.session, data.sessions).Some? && All(env.group, data.groups).Some?
    ensures writes != [] ==> writes <= Writes(env, data)
    ensures ok ==> writes != [] && writes == Writes(env, data)
    ensures GetsTo(env, data, |reports|, |writes|)
  {
    hide Reports, Known, Count, Reported;
    ok, reports, writes := false, [], [];
    var total := 5 + |data.sessions| + |data.groups|;
    ghost var n := |data.sessions| + |data.groups|;
    ghost var done := Reports([1, 2] + Count(2, n), total);
    assert done + Reports([3, 4, 5], total) == Reports(FullSteps(n), total) by {
      ReportsConcat([1, 2] + Count(2, n), [3, 4, 5], total);
    }
    assert Reports([1, 2], total) + Reports(Count(2, n), total) == done by {
      ReportsConcat([1, 2], Count(2, n), total);
    }
    TwoReports(total);
    ThreeReports(done, total);
    assert |Reports([1, 2], total)| == 2 && |Reports(Count(2, n), total)| == n by {
      ReportsLength([1, 2], total);
      ReportsLength(Count(2, n), total);
      CountLength(2, n);
    }
    var processed := 0;
    if !env.opens { return; }
    processed := processed + 1;
    reports := reports + [Reported(processed, total)];
    if !env.userId(data.user) || !env.account { return; }
    processed := processed + 1;
    reports := reports + [Reported(processed, total)];
    var collected, r := CollectSessions(env, data.sessions, data.groups, processed, total, reports);
    reports := r;
    if collected.None? || !env.backupKey || !env.secrets { return; }
    processed := processed + 1;
    reports := reports + [Reported(processed, total)];
    if !env.savesUsers { return; }
    writes := writes + [TrackedUsers(Known(env.userId, data.tracked))];
    processed := processed + 1;
    reports := reports + [Reported(processed, total)];
    if exists r | r in data.rooms :: !env.roomId(r) { return; }
    if !env.savesAccount { return; }
    writes := writes + [Account];
    if !env.savesChanges { return; }
    writes := writes + [Changes(collected.value.0, collected.value.1, data.rooms)];
    processed := processed + 1;
    reports := reports + [Reported(processed, total)];
    ok := true;
  }

  /** The later migration of sessions alone. */
  method MigrateSessionData<P, G, S, H, R>(env: Env<P, G, S, H>, data: Data<P, G, R>)
    returns (ok: bool, reports: seq<Report>, writes: seq<Write<S, H, R>>)
    ensures ok <==> env.opens && env.userId(data.user) && env.keys && env.savesChanges
                    && All(env.session, data.sessions).Some? && All(env.group, data.groups).Some?
    ensures var n := |data.sessions| + |data.groups|;
            reports <= Reports(SessionSteps(n), 1 + n) && (ok ==> reports == Reports(SessionSteps(n), 1 + n))
    ensures if ok
            then writes == [Changes(All(env.session, data.sessions).value, All(env.group, data.groups).value, map[])]
            else writes == []
  {
    ok, reports, writes := false, [], [];
    hide Reports, Count, Reported;
    var total := 1 + |data.sessions| + |data.groups|;
    ghost var n := |data.sessions| + |data.groups|;
    ReportsMore(Count(0, n), 1, total);
    if !env.opens { return; }
    var processed := 0;
    if !env.userId(data.user) || !env.keys { return; }
    var collected, r := CollectSessions(env, data.sessions, data.groups, processed, total, reports);
    reports := r;
    if collected.None? { return; }
    if !env.savesChanges { return; }
    writes := [Changes(collected.value.0, collected.value.1, map[])];
    processed := processed + 1;
    reports := reports + [Reported(processed, total)];
    ok := true;
  }
}
