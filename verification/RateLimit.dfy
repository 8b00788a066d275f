/** The sliding-window limiter of internal/api/ratelimit.go. The implementation keeps a pruned
    list of time stamps per user; the specification is the full history of admissions. */
module RateLimit {

  type User = string

  datatype Admission = Admission(user: User, time: int)

  /** time.Minute; the clock counts nanoseconds. */
  const WINDOW: nat := 60_000_000_000

  // ----- the specification: decisions from the full history -----

  function TimesOf(log: seq<Admission>, user: User): seq<int> {
    if log == [] then [] else
      var front, a := TimesOf(log[..|log| - 1], user), log[|log| - 1];
      if a.user == user then front + [a.time] else front
  }

  /** The time stamps in the closed interval from `lo` to `hi`. */
  function Within(ts: seq<int>, lo: int, hi: int): (r: seq<int>)
    ensures |r| <= |ts|
  {
    if ts == [] then [] else
      var front, t := Within(ts[..|ts| - 1], lo, hi), ts[|ts| - 1];
      if lo <= t <= hi then front + [t] else front
  }

  /** Admit if fewer than `rpm` requests of the user were admitted in the closed last minute. */
  predicate Decide(log: seq<Admission>, rpm: int, user: User, now: int) {
    rpm <= 0 || |Within(TimesOf(log, user), now - WINDOW, now)| < rpm
  }

  function Record(log: seq<Admission>, rpm: int, user: User, now: int): seq<Admission> {
    if Decide(log, rpm, user, now) then log + [Admission(user, now)] else log
  }

  function RunLog(rpm: int, requests: seq<Admission>): seq<Admission> {
    if requests == [] then [] else
      var r := requests[|requests| - 1];
      Record(RunLog(rpm, requests[..|requests| - 1]), rpm, r.user, r.time)
  }

  function Decisions(rpm: int, requests: seq<Admission>): (ds: seq<bool>)
    ensures |ds| == |requests|
  {
    if requests == [] then [] else
      var front, r := requests[..|requests| - 1], requests[|requests| - 1];
      Decisions(rpm, front) + [Decide(RunLog(rpm, front), rpm, r.user, r.time)]
  }

  predicate Sorted(ts: seq<int>) {
    forall i, j :: 0 <= i < j < |ts| ==> ts[i] <= ts[j]
  }

  predicate InOrder(log: seq<Admission>) {
    forall i, j :: 0 <= i < j < |log| ==> log[i].time <= log[j].time
  }

  lemma {:induction false} TimesSorted(log: seq<Admission>, user: User)
    requires InOrder(log)
    ensures Sorted(TimesOf(log, user)) && (log == [] ==> TimesOf(log, user) == [])
    ensures forall i :: 0 <= i < |TimesOf(log, user)| ==> TimesOf(log, user)[i] <= log[|log| - 1].time
  {
    if log != [] {
      var front := log[..|log| - 1];
      TimesSorted(front, user);
      assert front != [] ==> front[|front| - 1].time <= log[|log| - 1].time;
    }
  }

  lemma TimesSnoc(log: seq<Admission>, a: Admission, user: User)
    ensures TimesOf(log + [a], user) == if a.user == user then TimesOf(log, user) + [a.time] else TimesOf(log, user)
  {
    assert (log + [a])[..|log + [a]| - 1] == log;
  }

  lemma {:induction false} WithinSuffix(ts: seq<int>, k: nat, lo: int, hi: int)
    requires k <= |ts| && forall i :: 0 <= i < k ==> ts[i] < lo
    ensures Within(ts, lo, hi) == Within(ts[k..], lo, hi)
  {
    if k < |ts| {
      WithinSuffix(ts[..|ts| - 1], k, lo, hi);
      assert ts[k..][..|ts[k..]| - 1] == ts[..|ts| - 1][k..];
    } else if ts != [] {
      WithinSuffix(ts[..|ts| - 1], k - 1, lo, hi);
      assert ts[..|ts| - 1][k - 1..] == ts[k..] == [];
    }
  }

  lemma {:induction false} WithinAll(ts: seq<int>, lo: int, hi: int)
    requires forall i :: 0 <= i < |ts| ==> lo <= ts[i] <= hi
    ensures Within(ts, lo, hi) == ts
  {
    if ts != [] {
      WithinAll(ts[..|ts| - 1], lo, hi);
      assert ts == ts[..|ts| - 1] + [ts[|ts| - 1]];
    }
  }

  // ----- at most rpm admissions in any minute -----

  /** Any two admissions that are `rpm` apart in the list are more than a minute apart in time. */
  predicate Spaced(ts: seq<int>, rpm: int)
    requires rpm > 0
  {
    forall k :: rpm <= k < |ts| ==> ts[k - rpm] < ts[k] - WINDOW
  }

  predicate Before(log: seq<Admission>, now: int) {
    forall i :: 0 <= i < |log| ==> log[i].time <= now
  }

  lemma RecordKeepsSpacing(log: seq<Admission>, rpm: int, r: Admission, user: User)
    requires rpm > 0 && InOrder(log) && Before(log, r.time) && Spaced(TimesOf(log, user), rpm)
    ensures var log' := Record(log, rpm, r.user, r.time);
            InOrder(log') && Before(log', r.time) && Spaced(TimesOf(log', user), rpm)
  {
    hide TimesOf;
    var ts := TimesOf(log, user);
    TimesSnoc(log, Admission(r.user, r.time), user);
    TimesSorted(log, user);
    if Decide(log, rpm, r.user, r.time) && r.user == user && |ts| >= rpm {
      RecentTail(ts, rpm, r.time);
    }
  }

  lemma {:induction false} RunIsSpaced(rpm: int, requests: seq<Admission>, user: User)
    requires rpm > 0 && InOrder(requests)
    ensures InOrder(RunLog(rpm, requests)) && Spaced(TimesOf(RunLog(rpm, requests), user), rpm)
    ensures requests != [] ==> Before(RunLog(rpm, requests), requests[|requests| - 1].time)
  {
    if requests != [] {
      var front, r := requests[..|requests| - 1], requests[|requests| - 1];
      RunIsSpaced(rpm, front, user);
      assert front != [] ==> front[|front| - 1].time <= r.time;
      RecordKeepsSpacing(RunLog(rpm, front), rpm, r, user);
    }
  }

  /** If fewer than `rpm` of the sorted stamps lie in the last minute, the `rpm`-th last does not. */
  lemma RecentTail(ts: seq<int>, rpm: int, now: int)
    requires 0 < rpm <= |ts| && Sorted(ts) && forall i :: 0 <= i < |ts| ==> ts[i] <= now
    requires |Within(ts, now - WINDOW, now)| < rpm
    ensures ts[|ts| - rpm] < now - WINDOW
  {
    var tail := ts[|ts| - rpm..];
    WithinLonger(ts, |ts| - rpm, now - WINDOW, now);
    if tail[0] >= now - WINDOW {
      WithinAll(tail, now - WINDOW, now);
    }
  }

  lemma {:induction false} WithinLonger(ts: seq<int>, k: nat, lo: int, hi: int)
    requires k <= |ts|
    ensures |Within(ts, lo, hi)| >= |Within(ts[k..], lo, hi)|
  {
    if k < |ts| {
      WithinLonger(ts[..|ts| - 1], k, lo, hi);
      assert ts[k..][..|ts[k..]| - 1] == ts[..|ts| - 1][k..];
    }
  }

  lemma {:induction false} SpacedWithin(ts: seq<int>, rpm: int, lo: int)
    requires rpm > 0 && Sorted(ts) && Spaced(ts, rpm)
    ensures |Within(ts, lo, lo + WINDOW)| <= rpm
  {
    if ts != [] {
      var front, t := ts[..|ts| - 1], ts[|ts| - 1];
      SpacedWithin(front, rpm, lo);
      if lo <= t <= lo + WINDOW && |ts| > rpm {
        var k := |ts| - rpm;
        assert ts[|ts| - 1 - rpm] < t - WINDOW;
        assert forall i :: 0 <= i < k - 1 ==> ts[i] <= ts[k - 1];
        WithinSuffix(ts, k, lo, lo + WINDOW);
      }
    }
  }

  /** In every run, every closed one-minute interval holds at most `rpm` admissions of a user. */
  lemma WindowBound(rpm: int, requests: seq<Admission>, user: User, lo: int)
    requires rpm > 0 && InOrder(requests)
    ensures |Within(TimesOf(RunLog(rpm, requests), user), lo, lo + WINDOW)| <= rpm
  {
    RunIsSpaced(rpm, requests, user);
    TimesSorted(RunLog(rpm, requests), user);
    SpacedWithin(TimesOf(RunLog(rpm, requests), user), rpm, lo);
  }

  // ----- decisions, told from the requests -----

  /** The requests of the user among the first `k` that were admitted at `lo` or later. */
  ghost function AdmittedSince(rpm: int, rs: seq<Admission>, k: nat, user: User, lo: int): set<int>
    requires k <= |rs|
  {
    set i | 0 <= i < k && Counts(Decisions(rpm, rs), rs, i, user, lo)
  }

  predicate Counts(ds: seq<bool>, rs: seq<Admission>, i: int, user: User, lo: int)
    requires |ds| == |rs| && 0 <= i < |rs|
  {
    ds[i] && rs[i].user == user && rs[i].time >= lo
  }

  lemma {:induction false} DecisionAt(rpm: int, rs: seq<Admission>, k: nat)
    requires k < |rs|
    ensures Decisions(rpm, rs)[k] == Decide(RunLog(rpm, rs[..k]), rpm, rs[k].user, rs[k].time)
    ensures Decisions(rpm, rs)[..k] == Decisions(rpm, rs[..k])
  {
    var front := rs[..|rs| - 1];
    if k < |rs| - 1 {
      DecisionAt(rpm, front, k);
      assert front[..k] == rs[..k] && Decisions(rpm, rs)[..k] == Decisions(rpm, front)[..k];
    }
  }

  lemma OneMore(before: set<int>, now: set<int>, n: int, last: bool)
    requires n !in before
    requires forall i :: i in now ==> i in before || (last && i == n)
    requires before <= now && (last ==> n in now)
    ensures |now| == |before| + if last then 1 else 0
  {
    var all := before + if last then {n} else {};
    forall i | i in now ensures i in all {
    }
    assert now <= all && all <= now;
    assert now == all;
  }

  lemma AdmittedStep(rpm: int, rs: seq<Admission>, user: User, lo: int)
    requires rs != []
    ensures var n := |rs| - 1;
            var before, now := AdmittedSince(rpm, rs[..n], n, user, lo), AdmittedSince(rpm, rs, n + 1, user, lo);
            |now| == |before| + if Decisions(rpm, rs)[n] && rs[n].user == user && rs[n].time >= lo then 1 else 0
  {
    var n := |rs| - 1;
    var front, ds := rs[..n], Decisions(rpm, rs);
    assert Decisions(rpm, front) == ds[..n];
    hide Decisions;
    var before, now := AdmittedSince(rpm, front, n, user, lo), AdmittedSince(rpm, rs, n + 1, user, lo);
    var last := Counts(ds, rs, n, user, lo);
    forall i ensures i in now <==> i in before || (last && i == n) {
      assert i in now <==> 0 <= i <= n && Counts(ds, rs, i, user, lo);
      assert i in before <==> 0 <= i < n && Counts(ds[..n], front, i, user, lo);
    }
    assert before <= now;
    OneMore(before, now, n, last);
  }

  lemma LogStep(rpm: int, rs: seq<Admission>, user: User, lo: int, hi: int)
    requires rs != [] && rs[|rs| - 1].time <= hi
    ensures var n := |rs| - 1;
            |Within(TimesOf(RunLog(rpm, rs), user), lo, hi)| == |Within(TimesOf(RunLog(rpm, rs[..n]), user), lo, hi)|
              + if Decisions(rpm, rs)[n] && rs[n].user == user && rs[n].time >= lo then 1 else 0
  {
    hide Within, TimesOf, Decide;
    var front, r := rs[..|rs| - 1], rs[|rs| - 1];
    TimesSnoc(RunLog(rpm, front), Admission(r.user, r.time), user);
    WithinSnoc(TimesOf(RunLog(rpm, front), user), r.time, lo, hi);
  }

  lemma {:induction false} LogCount(rpm: int, rs: seq<Admission>, user: User, lo: int, hi: int)
    requires forall i :: 0 <= i < |rs| ==> rs[i].time <= hi
    ensures |Within(TimesOf(RunLog(rpm, rs), user), lo, hi)| == |AdmittedSince(rpm, rs, |rs|, user, lo)|
  {
    if rs == [] {
      assert AdmittedSince(rpm, rs, 0, user, lo) == {};
    } else {
      hide AdmittedSince, Within, TimesOf, RunLog;
      LogCount(rpm, rs[..|rs| - 1], user, lo, hi);
      AdmittedStep(rpm, rs, user, lo);
      LogStep(rpm, rs, user, lo, hi);
    }
  }

  lemma WithinSnoc(ts: seq<int>, t: int, lo: int, hi: int)
    ensures Within(ts + [t], lo, hi) == if lo <= t <= hi then Within(ts, lo, hi) + [t] else Within(ts, lo, hi)
  {
    assert (ts + [t])[..|ts + [t]| - 1] == ts;
  }

  /** A request is admitted exactly if there is no limit, or fewer than that many requests of the
      same user were admitted in the sixty seconds up to it. */
  lemma DecisionIs(rpm: int, rs: seq<Admission>, k: nat)
    requires k < |rs| && InOrder(rs)
    ensures Decisions(rpm, rs)[k] <==>
            rpm <= 0 || |AdmittedSince(rpm, rs, k, rs[k].user, rs[k].time - 60_000_000_000)| < rpm
  {
    var front, r := rs[..k], rs[k];
    DecisionAt(rpm, rs, k);
    LogCount(rpm, front, r.user, r.time - 60_000_000_000, r.time);
    assert Decide(RunLog(rpm, front), rpm, r.user, r.time) <==>
           rpm <= 0 || |AdmittedSince(rpm, front, k, r.user, r.time - 60_000_000_000)| < rpm;
    var ds, lo := Decisions(rpm, rs), r.time - 60_000_000_000;
    hide Decisions, RunLog, Decide;
    forall i | 0 <= i < k ensures Counts(ds, rs, i, r.user, lo) == Counts(ds[..k], front, i, r.user, lo) {
    }
    hide Counts;
    assert AdmittedSince(rpm, rs, k, r.user, r.time - 60_000_000_000)
        == AdmittedSince(rpm, front, k, r.user, r.time - 60_000_000_000);
  }

  // ----- the implementation -----

  /** The first index whose stamp is not before the cutoff. */
  method FirstRecent(ts: seq<int>, cutoff: int) returns (start: nat)
    ensures start <= |ts| && (forall i :: 0 <= i < start ==> ts[i] < cutoff)
    ensures start < |ts| ==> ts[start] >= cutoff
  {
    start := 0;
    while start < |ts| && ts[start] < cutoff
      invariant start <= |ts| && forall i :: 0 <= i < start ==> ts[i] < cutoff
    {
      start := start + 1;
    }
  }

  /** `kept` is `all` without some first stamps that are more than a minute older than `last`. */
  predicate PrunedFrom(kept: seq<int>, all: seq<int>, last: int) {
    var d := |all| - |kept|;
    0 <= d && kept == all[d..] && forall i :: 0 <= i < d ==> all[i] < last - WINDOW
  }

  lemma LastMinute(all: seq<int>, k: nat, now: int)
    requires Sorted(all) && k <= |all| && (forall i :: 0 <= i < |all| ==> all[i] <= now)
    requires forall i :: 0 <= i < k ==> all[i] < now - WINDOW
    requires k < |all| ==> all[k] >= now - WINDOW
    ensures Within(all, now - WINDOW, now) == all[k..]
  {
    WithinSuffix(all, k, now - WINDOW, now);
    forall i | 0 <= i < |all[k..]| ensures now - WINDOW <= all[k..][i] <= now {
      assert all[k..][i] == all[k + i] >= all[k];
    }
    WithinAll(all[k..], now - WINDOW, now);
  }

  lemma DropDrop(all: seq<int>, d: nat, start: nat)
    requires d <= |all| && start <= |all| - d
    ensures all[d..][start..] == all[d + start..]
    ensures forall i :: 0 <= i < |all| - d ==> all[d..][i] == all[d + i]
  {
  }

  /** Dropping the stamps before the cutoff leaves exactly the user's last minute. */
  lemma PruneIsExact(all: seq<int>, ts: seq<int>, start: nat, last: int, now: int)
    requires Sorted(all) && (forall i :: 0 <= i < |all| ==> all[i] <= now)
    requires PrunedFrom(ts, all, last) && last <= now && start <= |ts|
    requires forall i :: 0 <= i < start ==> ts[i] < now - WINDOW
    requires start < |ts| ==> ts[start] >= now - WINDOW
    ensures Within(all, now - WINDOW, now) == ts[start..] && PrunedFrom(ts[start..], all, now)
  {
    var d := |all| - |ts|;
    DropDrop(all, d, start);
    forall i | 0 <= i < d + start ensures all[i] < now - WINDOW {
      if i >= d { assert ts[i - d] == all[d + (i - d)]; }
    }
    LastMinute(all, d + start, now);
  }

  type Windows = map<User, seq<int>>

  function Kept(w: Windows, user: User): seq<int> {
    if user in w then w[user] else []
  }

  ghost predicate Tracks(kept: seq<int>, all: seq<int>, rpm: int, last: int) {
    |kept| <= rpm && PrunedFrom(kept, all, last)
  }

  /** The pruned index agrees with the history for every user, and is bounded by the limit. */
  ghost predicate Index(w: Windows, log: seq<Admission>, rpm: int, last: int) {
    && InOrder(log) && Before(log, last)
    && forall u :: Tracks(Kept(w, u), TimesOf(log, u), rpm, last)
  }

  /** Pruning one user's stamps keeps the index right and leaves that user's last minute. */
  lemma IndexPrune(w: Windows, log: seq<Admission>, rpm: int, last: int, user: User, start: nat, now: int)
    requires Index(w, log, rpm, last) && last <= now
    requires start <= |Kept(w, user)|
    requires forall i :: 0 <= i < start ==> Kept(w, user)[i] < now - WINDOW
    requires start < |Kept(w, user)| ==> Kept(w, user)[start] >= now - WINDOW
    ensures var ts := Kept(w, user)[start..];
      && Within(TimesOf(log, user), now - WINDOW, now) == ts && |ts| <= rpm
      && PrunedFrom(ts, TimesOf(log, user), now)
      && Index(w[user := ts], log, rpm, now)
  {
    var ts := Kept(w, user)[start..];
    TimesSorted(log, user);
    assert Tracks(Kept(w, user), TimesOf(log, user), rpm, last);
    PruneIsExact(TimesOf(log, user), Kept(w, user), start, last, now);
    Reindex(w, w[user := ts], log, log, rpm, last, user, now);
  }

  lemma IndexDelete(w: Windows, log: seq<Admission>, rpm: int, user: User, now: int)
    requires Index(w[user := []], log, rpm, now)
    ensures Index(w - {user}, log, rpm, now)
  {
    forall u ensures Tracks(Kept(w - {user}, u), TimesOf(log, u), rpm, now) {
      assert Tracks(Kept(w[user := []], u), TimesOf(log, u), rpm, now);
    }
  }

  lemma IndexAdmit(w: Windows, log: seq<Admission>, rpm: int, user: User, ts: seq<int>, now: int)
    requires Index(w[user := ts], log, rpm, now) && |ts| < rpm
    ensures Index(w[user := ts + [now]], log + [Admission(user, now)], rpm, now)
  {
    var log' := log + [Admission(user, now)];
    forall u ensures TimesOf(log', u) == if u == user then TimesOf(log, u) + [now] else TimesOf(log, u) {
      TimesSnoc(log, Admission(user, now), u);
    }
    var all := TimesOf(log, user);
    assert Tracks(Kept(w[user := ts], user), all, rpm, now);
    assert ts + [now] == (all + [now])[|all| - |ts|..];
    Reindex(w[user := ts], w[user := ts + [now]], log, log', rpm, now, user, now);
  }

  lemma Reindex(w: Windows, w': Windows, log: seq<Admission>, log': seq<Admission>,
                rpm: int, last: int, user: User, now: int)
    requires Index(w, log, rpm, last) && last <= now && InOrder(log') && Before(log', now)
    requires forall u :: u != user ==> Kept(w', u) == Kept(w, u) && TimesOf(log', u) == TimesOf(log, u)
    requires Tracks(Kept(w', user), TimesOf(log', user), rpm, now)
    ensures Index(w', log', rpm, now)
  {
    forall u ensures Tracks(Kept(w', u), TimesOf(log', u), rpm, now) {
      if u != user { assert Tracks(Kept(w, u), TimesOf(log, u), rpm, last); }
    }
  }

  class RateLimiter {
    const rpm: int
    var windows: Windows
    ghost var log: seq<Admission>
    ghost var last: int  // the latest clock reading

    ghost predicate Valid()
      reads this
    {
      rpm == 0 || (rpm > 0 && Index(windows, log, rpm, last))
    }

    constructor (limit: int, now: int)
      ensures Valid() && log == [] && last == now && rpm == if limit <= 0 then 0 else limit
    {
      rpm := if limit <= 0 then 0 else limit;
      windows := map[];
      log := [];
      last := now;
    }

    /** `now` is the clock reading taken under the lock, so it never goes backwards. */
    method Allow(userID: User, now: int) returns (ok: bool)
      requires Valid() && now >= last
      modifies this
      ensures Valid() && last == now
      ensures ok == Decide(old(log), rpm, userID, now)
      ensures log == if rpm > 0 then Record(old(log), rpm, userID, now) else old(log)
    {
      if rpm <= 0 {
        last := now;
        return true;
      }
      var cutoff := now - WINDOW;
      var ts := if userID in windows then windows[userID] else [];
      var start := FirstRecent(ts, cutoff);
      IndexPrune(windows, log, rpm, last, userID, start, now);
      last := now;
      ts := ts[start..];
      if |ts| >= rpm {
        windows := windows[userID := ts];
        return false;
      }
      IndexAdmit(windows, log, rpm, userID, ts, now);
      windows, log := windows[userID := ts + [now]], log + [Admission(userID, now)];
      return true;
    }

    /** One round of cleanup: it drops old stamps and empty entries and changes no decision,
        since decisions depend on the history alone. */
    method CleanupRound(now: int)
      requires Valid() && now >= last
      modifies this
      ensures Valid() && last == now && log == old(log)
      ensures rpm > 0 ==> Fresh(windows, {}, now - WINDOW)
    {
      if rpm <= 0 {
        last := now;
        return;
      }
      var cutoff := now - WINDOW;
      Later(windows, log, rpm, last, now);
      last := now;
      var todo := windows.Keys;
      while todo != {}
        invariant Index(windows, log, rpm, now) && last == now && log == old(log) && todo <= windows.Keys
        invariant Fresh(windows, todo, cutoff)
        decreases |todo|
      {
        var uid :| uid in todo;
        var ts := windows[uid];
        var start := FirstRecent(ts, cutoff);
        CleanStep(windows, log, rpm, uid, start, now, todo);
        if start == |ts| {
          windows := windows - {uid};
        } else {
          windows := windows[uid := ts[start..]];
        }
        todo := todo - {uid};
      }
    }
  }

  /** Outside `todo`, every entry begins with a recent stamp. */
  ghost predicate Fresh(w: Windows, todo: set<User>, cutoff: int) {
    forall u :: u in w && u !in todo ==> w[u] != [] && w[u][0] >= cutoff
  }

  lemma CleanStep(w: Windows, log: seq<Admission>, rpm: int, uid: User, start: nat, now: int, todo: set<User>)
    requires Index(w, log, rpm, now) && uid in w && start <= |w[uid]| && Fresh(w, todo, now - WINDOW)
    requires forall i :: 0 <= i < start ==> w[uid][i] < now - WINDOW
    requires start < |w[uid]| ==> w[uid][start] >= now - WINDOW
    ensures var w' := if start == |w[uid]| then w - {uid} else w[uid := w[uid][start..]];
            Index(w', log, rpm, now) && Fresh(w', todo - {uid}, now - WINDOW)
  {
    IndexPrune(w, log, rpm, now, uid, start, now);
    if start == |w[uid]| {
      assert w[uid][start..] == [];
      IndexDelete(w, log, rpm, uid, now);
    }
  }

  lemma Later(w: Windows, log: seq<Admission>, rpm: int, last: int, now: int)
    requires Index(w, log, rpm, last) && last <= now
    ensures Index(w, log, rpm, now)
  {
    forall u ensures Tracks(Kept(w, u), TimesOf(log, u), rpm, now) {
      assert Tracks(Kept(w, u), TimesOf(log, u), rpm, last);
    }
  }

  // ----- runs of the implementation -----

  datatype Step = Request(user: User, time: int) | Cleanup(time: int)

  function Requests(steps: seq<Step>): seq<Admission> {
    if steps == [] then [] else
      var front, s := Requests(steps[..|steps| - 1]), steps[|steps| - 1];
      if s.Request? then front + [Admission(s.user, s.time)] else front
  }

  lemma SpecStep(rpm: int, steps: seq<Step>, k: nat)
    requires k < |steps|
    ensures var rs, rs', s := Requests(steps[..k]), Requests(steps[..k + 1]), steps[k];
      match s
      case Request(user, time) =>
        && Decisions(rpm, rs') == Decisions(rpm, rs) + [Decide(RunLog(rpm, rs), rpm, user, time)]
        && RunLog(rpm, rs') == Record(RunLog(rpm, rs), rpm, user, time)
      case Cleanup(_) => rs' == rs
  {
    assert steps[..k + 1][..|steps[..k + 1]| - 1] == steps[..k];
    var rs, s := Requests(steps[..k]), steps[k];
    if s.Request? {
      var rs' := rs + [Admission(s.user, s.time)];
      assert rs'[..|rs'| - 1] == rs;
    }
  }

  /** The middleware's view of a run: whatever cleanup rounds are interleaved, the answers are
      those of the full-history specification on the requests alone. */
  method Serve(limit: int, steps: seq<Step>) returns (answers: seq<bool>)
    requires forall i, j :: 0 <= i < j < |steps| ==> steps[i].time <= steps[j].time
    ensures answers == Decisions(if limit <= 0 then 0 else limit, Requests(steps))
  {
    var rl := new RateLimiter(limit, if steps == [] then 0 else steps[0].time);
    answers := [];
    for k := 0 to |steps|
      invariant rl.Valid() && rl.rpm == if limit <= 0 then 0 else limit
      invariant k < |steps| ==> rl.last <= steps[k].time
      invariant answers == Decisions(rl.rpm, Requests(steps[..k]))
      invariant rl.rpm > 0 ==> rl.log == RunLog(rl.rpm, Requests(steps[..k]))
    {
      SpecStep(rl.rpm, steps, k);
      match steps[k] {
        case Request(user, time) =>
          var ok := rl.Allow(user, time);
          answers := answers + [ok];
        case Cleanup(time) =>
          rl.CleanupRound(time);
      }
    }
    assert steps[..|steps|] == steps;
  }
}
