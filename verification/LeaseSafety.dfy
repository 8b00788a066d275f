/** The lease and its timing put together: a run whose renewals keep to schedules that survive
    never lapses, and so never has two adapters. */
module LeaseSafety {
  import opened Lease
  import T = LeaseTiming

  /** The hold of one runner: its renewal schedule, the moment its ticker was created, and the
      number of attempts made, the Acquire included. */
  datatype Hold = Hold(schedule: seq<T.Attempt>, origin: int, made: nat)

  /** Which schedule a runner's hold will follow, by runner and moment. */
  type Schedules = (nat, int) -> seq<T.Attempt>

  /** Every hold starts from a successful Acquire and follows a schedule that survives. */
  ghost predicate AllSurvive(cfg: Config, interval: nat, plan: Schedules) {
    forall i, t :: plan(i, t) != [] && plan(i, t)[0].ok && T.Survives(plan(i, t), interval, cfg.ttl)
  }

  /** The attempts of runner `i` read the clock when the schedule says so, and turn out as it says. */
  predicate Obeys(s: State, e: Event, interval: nat, plan: Schedules, hs: seq<Hold>) {
    match e
    case AcquireOk(i, at) => plan(i, s.now) != [] && at == s.now + T.ReadAt(plan(i, s.now), interval, 0)
    case RenewOk(i, at) =>
      && i < |hs| && hs[i].made < |hs[i].schedule| && hs[i].schedule[hs[i].made].ok
      && at == hs[i].origin + T.ReadAt(hs[i].schedule, interval, hs[i].made)
    case RenewError(i, _, _) =>
      i < |hs| && hs[i].made < |hs[i].schedule| && !hs[i].schedule[hs[i].made].ok
    case _ => true
  }

  function Advance(s: State, e: Event, plan: Schedules, hs: seq<Hold>): (r: seq<Hold>)
    ensures |r| == |hs|
  {
    match e
    case AcquireOk(i, _) => if i < |hs| then hs[i := Hold(plan(i, s.now), s.now, 1)] else hs
    case RenewOk(i, _) => if i < |hs| then hs[i := hs[i].(made := hs[i].made + 1)] else hs
    case RenewError(i, _, _) => if i < |hs| then hs[i := hs[i].(made := hs[i].made + 1)] else hs
    case _ => hs
  }

  /** While an adapter runs, the next attempt of its schedule is not overdue. */
  predicate Punctual(s: State, interval: nat, hs: seq<Hold>) {
    && |hs| == |s.runners|
    && forall i :: 0 <= i < |hs| && s.runners[i].starts > 0 ==>
         hs[i].made < |hs[i].schedule| && s.now <= hs[i].origin + T.LandsAt(hs[i].schedule, interval, hs[i].made)
  }

  predicate OnTime(cfg: Config, s: State, es: seq<Event>, interval: nat, plan: Schedules, hs: seq<Hold>)
    requires |s.runners| == |cfg.holders|
    decreases |es|
  {
    && Punctual(s, interval, hs)
    && (es != [] && Enabled(cfg, s, es[0]) ==>
          && Obeys(s, es[0], interval, plan, hs)
          && OnTime(cfg, Next(cfg, s, es[0]), es[1..], interval, plan, Advance(s, es[0], plan, hs)))
  }

  /** The expiry a runner believes in is that of the last success of its schedule. */
  ghost predicate Tracked(cfg: Config, s: State, interval: nat, h: Hold, r: Runner) {
    r.starts > 0 || r.renewers > 0 ==>
      && 1 <= h.made <= |h.schedule| && h.schedule[0].ok && T.Survives(h.schedule, interval, cfg.ttl)
      && r.until == h.origin + T.ReadAt(h.schedule, interval, T.LastOk(h.schedule, h.made - 1)) + cfg.ttl
  }

  ghost predicate AllTracked(cfg: Config, s: State, interval: nat, hs: seq<Hold>) {
    |hs| == |s.runners| && forall i :: 0 <= i < |hs| ==> Tracked(cfg, s, interval, hs[i], s.runners[i])
  }

  lemma StepTracks(cfg: Config, s: State, e: Event, interval: nat, plan: Schedules, hs: seq<Hold>)
    requires |s.runners| == |cfg.holders| && Enabled(cfg, s, e) && AllSurvive(cfg, interval, plan)
    requires AllTracked(cfg, s, interval, hs) && Obeys(s, e, interval, plan, hs)
    ensures AllTracked(cfg, Next(cfg, s, e), interval, Advance(s, e, plan, hs))
  {
    var s', hs' := Next(cfg, s, e), Advance(s, e, plan, hs);
    forall i | 0 <= i < |hs'| ensures Tracked(cfg, s', interval, hs'[i], s'.runners[i]) {
      assert Tracked(cfg, s, interval, hs[i], s.runners[i]);
    }
  }

  lemma PunctualIsNoLapse(cfg: Config, s: State, interval: nat, hs: seq<Hold>)
    requires AllTracked(cfg, s, interval, hs) && Punctual(s, interval, hs)
    ensures NoLapse(s)
  {
    forall i | 0 <= i < |s.runners| && s.runners[i].starts > 0 ensures s.now <= s.runners[i].until {
      assert Tracked(cfg, s, interval, hs[i], s.runners[i]);
    }
  }

  lemma {:induction false} OnTimeNeverLapses(
    cfg: Config, s: State, es: seq<Event>, interval: nat, plan: Schedules, hs: seq<Hold>)
    requires |s.runners| == |cfg.holders| && AllSurvive(cfg, interval, plan)
    requires AllTracked(cfg, s, interval, hs) && OnTime(cfg, s, es, interval, plan, hs)
    ensures NeverLapses(cfg, s, es)
    decreases |es|
  {
    PunctualIsNoLapse(cfg, s, interval, hs);
    if es != [] && Enabled(cfg, s, es[0]) {
      StepTracks(cfg, s, es[0], interval, plan, hs);
      OnTimeNeverLapses(cfg, Next(cfg, s, es[0]), es[1..], interval, plan, Advance(s, es[0], plan, hs));
    }
  }

  function NoHolds(cfg: Config): seq<Hold> {
    seq(|cfg.holders|, i => Hold([], 0, 0))
  }

  /** With distinct holders, calls that take at most `maxDelay` and at most `n` failures in a row,
      where (n + 1) intervals and twice the delay fit into the TTL, no run that keeps to its
      schedules ever has two adapters running. */
  lemma PunctualRunsAreExclusive(
    cfg: Config, es: seq<Event>, interval: nat, plan: Schedules, maxDelay: nat, n: nat)
    requires Injective(cfg) && (n + 1) * interval + 2 * maxDelay <= cfg.ttl
    requires forall i, t :: T.Admissible(plan(i, t), maxDelay, n)
    requires OnTime(cfg, Init(cfg), es, interval, plan, NoHolds(cfg)) && Run(cfg, Init(cfg), es).Reached?
    ensures NeverLapses(cfg, Init(cfg), es) && AtMostOneAdapter(Run(cfg, Init(cfg), es).state)
  {
    forall i, t ensures plan(i, t) != [] && plan(i, t)[0].ok && T.Survives(plan(i, t), interval, cfg.ttl) {
      T.AdmissibleSurvives(plan(i, t), interval, cfg.ttl, maxDelay, n);
    }
    OnTimeNeverLapses(cfg, Init(cfg), es, interval, plan, NoHolds(cfg));
    ExclusionTheorem(cfg);
  }

  // ----- the bound is needed -----

  /** Two calls that succeed at once. */
  function Quick(): seq<T.Attempt> {
    [T.Attempt(0, 0, true), T.Attempt(0, 0, true)]
  }

  lemma QuickAdmissible(maxDelay: nat, n: nat)
    ensures T.Admissible(Quick(), maxDelay, n)
  {
    assert forall k :: 0 <= k < 2 ==> T.LastOk(Quick(), k) == k;
  }

  /** A run on time at whose end two adapters are running. */
  ghost predicate Breaks(cfg: Config, s: State, es: seq<Event>, interval: nat, plan: Schedules, hs: seq<Hold>)
    requires |s.runners| == |cfg.holders|
  {
    && OnTime(cfg, s, es, interval, plan, hs) && Run(cfg, s, es).Reached?
    && !AtMostOneAdapter(Run(cfg, s, es).state)
  }

  lemma BreaksBefore(cfg: Config, s: State, e: Event, s': State, es: seq<Event>, interval: nat, plan: Schedules,
                     hs: seq<Hold>, hs': seq<Hold>)
    requires |s.runners| == |s'.runners| == |cfg.holders| && Enabled(cfg, s, e) && Next(cfg, s, e) == s'
    requires Obeys(s, e, interval, plan, hs) && Advance(s, e, plan, hs) == hs' && Punctual(s, interval, hs)
    requires Breaks(cfg, s', es, interval, plan, hs')
    ensures Breaks(cfg, s, [e] + es, interval, plan, hs)
  {
    assert ([e] + es)[1..] == es;
  }

  /** A runner in its first hold, whose row expires at `until`. */
  function Holding(until: int): Runner {
    Runner(Selecting, false, false, 1, 1, Held, false, until)
  }

  lemma BothRun(cfg: Config, s: State, i: nat, j: nat, interval: nat, plan: Schedules, hs: seq<Hold>)
    requires i < |s.runners| && j < |s.runners| && i != j && |s.runners| == |cfg.holders|
    requires s.runners[i].starts == 1 && s.runners[j].starts == 1 && Punctual(s, interval, hs)
    ensures Breaks(cfg, s, [], interval, plan, hs)
  {
    assert Run(cfg, s, []) == Reached(s);
  }

  /** Runner `i` holds the row and runner `j` is about to acquire it: it is free to, or shares the
      holder id. */
  lemma Take(cfg: Config, s: State, i: nat, j: nat, interval: nat, plan: Schedules, hs: seq<Hold>)
    requires |s.runners| == |cfg.holders| && i < |s.runners| && j < |s.runners| && i != j
    requires s.row.Row? && (s.row.holder == cfg.holders[j] || s.row.expires < s.now)
    requires s.runners[i].starts == 1 && s.runners[j] == IDLE.(pc := Acquiring)
    requires Punctual(s, interval, hs) && plan(j, s.now) == Quick()
    ensures Breaks(cfg, s, [AcquireOk(j, s.now)] + [], interval, plan, hs)
  {
    var e := AcquireOk(j, s.now);
    var s', hs' := Next(cfg, s, e), Advance(s, e, plan, hs);
    assert s' == s.(row := NextRow(cfg, s, e), runners := s.runners[j := NextRunner(cfg, s.runners[j], e)]);
    assert hs' == hs[j := Hold(Quick(), s.now, 1)];
    hide Breaks, Next, Advance;
    BothRun(cfg, s', i, j, interval, plan, hs');
    BreaksBefore(cfg, s, e, s', [], interval, plan, hs, hs');
  }

  /** Runner `j` takes the row of runner `i`. */
  lemma Steal(cfg: Config, i: nat, j: nat, now: int, until: int, interval: nat, plan: Schedules, h: Hold)
      returns (es: seq<Event>)
    requires i < |cfg.holders| && j < |cfg.holders| && i != j
    requires cfg.holders[i] == cfg.holders[j] || until < now
    requires h.made < |h.schedule| && now <= h.origin + T.LandsAt(h.schedule, interval, h.made)
    requires plan(j, now) == Quick()
    ensures var s := State(now, Row(cfg.holders[i], until), Init(cfg).runners[i := Holding(until)]);
            Breaks(cfg, s, es, interval, plan, NoHolds(cfg)[i := h])
  {
    var runners, hs := Init(cfg).runners[i := Holding(until)], NoHolds(cfg)[i := h];
    var s0 := State(now, Row(cfg.holders[i], until), runners);
    var s1 := s0.(runners := runners[j := IDLE.(pc := Acquiring)]);
    assert Next(cfg, s0, CheckCtx(j)) == s1 && Enabled(cfg, s0, CheckCtx(j));
    hide Breaks, Next, NextRunner, NextRow, Enabled;
    Take(cfg, s1, i, j, interval, plan, hs);
    BreaksBefore(cfg, s0, CheckCtx(j), s1, [AcquireOk(j, now)] + [], interval, plan, hs, hs);
    es := [CheckCtx(j)] + ([AcquireOk(j, now)] + []);
  }

  /** Runner `i` starts: its Acquire has read the clock `delay` ago. */
  lemma StartFirst(cfg: Config, i: nat, delay: nat, interval: nat, plan: Schedules, es: seq<Event>)
      returns (all: seq<Event>)
    requires i < |cfg.holders| && plan(i, 0) != [] && plan(i, 0)[0].read == delay
    requires var until := cfg.ttl - delay;
             var s := State(0, Row(cfg.holders[i], until), Init(cfg).runners[i := Holding(until)]);
             Breaks(cfg, s, es, interval, plan, NoHolds(cfg)[i := Hold(plan(i, 0), 0, 1)])
    ensures Breaks(cfg, Init(cfg), all, interval, plan, NoHolds(cfg))
  {
    var until := cfg.ttl - delay;
    var s2 := State(0, Row(cfg.holders[i], until), Init(cfg).runners[i := Holding(until)]);
    var s1 := State(0, NoRow, Init(cfg).runners[i := IDLE.(pc := Acquiring)]);
    var e := AcquireOk(i, 0 - delay);
    BreaksBefore(cfg, s1, e, s2, es, interval, plan, NoHolds(cfg), NoHolds(cfg)[i := Hold(plan(i, 0), 0, 1)]);
    BreaksBefore(cfg, Init(cfg), CheckCtx(i), s1, [e] + es, interval, plan, NoHolds(cfg), NoHolds(cfg));
    all := [CheckCtx(i)] + ([e] + es);
  }

  lemma TickBefore(cfg: Config, s: State, d: nat, es: seq<Event>, interval: nat, plan: Schedules, hs: seq<Hold>)
    requires |s.runners| == |cfg.holders| && Breaks(cfg, s.(now := s.now + d), es, interval, plan, hs)
    requires Punctual(s, interval, hs)
    ensures Breaks(cfg, s, [Tick(d)] + es, interval, plan, hs)
  {
    BreaksBefore(cfg, s, Tick(d), s.(now := s.now + d), es, interval, plan, hs, hs);
  }

  lemma RenewFails(cfg: Config, i: nat, s: State, until: int, es: seq<Event>, interval: nat, plan: Schedules, h: Hold)
      returns (all: seq<Event>)
    requires i < |cfg.holders| && |s.runners| == |cfg.holders| && s.runners == Init(cfg).runners[i := Holding(until)]
    requires until - cfg.ttl <= s.now
    requires h.made < |h.schedule| && !h.schedule[h.made].ok
    requires s.now <= h.origin + T.LandsAt(h.schedule, interval, h.made)
    requires Breaks(cfg, s, es, interval, plan, NoHolds(cfg)[i := h.(made := h.made + 1)])
    ensures Breaks(cfg, s, all, interval, plan, NoHolds(cfg)[i := h])
  {
    var e := RenewError(i, s.now, false);
    var hs, hs' := NoHolds(cfg)[i := h], NoHolds(cfg)[i := h.(made := h.made + 1)];
    assert Advance(s, e, plan, hs) == hs';
    assert Next(cfg, s, e) == s;
    BreaksBefore(cfg, s, e, s, es, interval, plan, hs, hs');
    all := [e] + es;
  }

  /** Runner `i` in its first hold, with an Acquire as slow as possible, at a moment `now`. */
  function Worn(cfg: Config, i: nat, now: int, maxDelay: nat): (s: State)
    requires i < |cfg.holders|
    ensures |s.runners| == |cfg.holders| && s.now == now
  {
    var until := cfg.ttl - maxDelay;
    State(now, Row(cfg.holders[i], until), Init(cfg).runners[i := Holding(until)])
  }

  /** Its hold after `k` failed renewals. */
  function WornHold(n: nat, maxDelay: nat, k: nat): Hold {
    Hold(T.Worst(n, maxDelay), 0, k + 1)
  }

  lemma WornPunctual(cfg: Config, i: nat, k: nat, now: int, interval: nat, maxDelay: nat, n: nat)
    requires i < |cfg.holders| && k <= n && now <= (k + 1) * interval
    ensures Punctual(Worn(cfg, i, now, maxDelay), interval, NoHolds(cfg)[i := WornHold(n, maxDelay, k)])
  {
    var w := T.Worst(n, maxDelay);
    assert T.LandsAt(w, interval, k + 1) >= (k + 1) * interval;
  }

  /** After `n` failures the row expires before the next attempt. */
  lemma Expires(cfg: Config, i: nat, j: nat, interval: nat, maxDelay: nat, n: nat, plan: Schedules)
      returns (es: seq<Event>)
    requires i < |cfg.holders| && j < |cfg.holders| && i != j
    requires (n + 1) * interval + 2 * maxDelay > cfg.ttl
    requires forall t: int :: plan(j, t) == Quick()
    ensures Breaks(cfg, Worn(cfg, i, n * interval, maxDelay), es, interval, plan,
                   NoHolds(cfg)[i := WornHold(n, maxDelay, n)])
  {
    hide Breaks;
    var w, until := T.Worst(n, maxDelay), cfg.ttl - maxDelay;
    var hs := NoHolds(cfg)[i := WornHold(n, maxDelay, n)];
    assert (n + 1) * interval == n * interval + interval;
    var now := if until + 1 > n * interval then until + 1 else n * interval;
    assert T.LandsAt(w, interval, n + 1) == (n + 1) * interval + maxDelay;
    es := Steal(cfg, i, j, now, until, interval, plan, WornHold(n, maxDelay, n));
    WornPunctual(cfg, i, n, n * interval, interval, maxDelay, n);
    TickBefore(cfg, Worn(cfg, i, n * interval, maxDelay), now - n * interval, es, interval, plan, hs);
    es := [Tick(now - n * interval)] + es;
  }

  /** And so it does after `k` failures on time and `n - k` more. */
  lemma {:induction false} FailOn(
    cfg: Config, i: nat, j: nat, k: nat, interval: nat, maxDelay: nat, n: nat, plan: Schedules)
      returns (es: seq<Event>)
    requires i < |cfg.holders| && j < |cfg.holders| && i != j && k <= n
    requires (n + 1) * interval + 2 * maxDelay > cfg.ttl
    requires forall t: int :: plan(j, t) == Quick()
    ensures Breaks(cfg, Worn(cfg, i, k * interval, maxDelay), es, interval, plan,
                   NoHolds(cfg)[i := WornHold(n, maxDelay, k)])
    decreases n - k
  {
    hide Breaks, Punctual;
    if k == n {
      es := Expires(cfg, i, j, interval, maxDelay, n, plan);
    } else {
      var next := (k + 1) * interval;
      assert next == k * interval + interval;
      es := FailOn(cfg, i, j, k + 1, interval, maxDelay, n, plan);
      es := FailOnce(cfg, i, k, next, es, interval, maxDelay, n, plan);
      WornPunctual(cfg, i, k, k * interval, interval, maxDelay, n);
      var hs := NoHolds(cfg)[i := WornHold(n, maxDelay, k)];
      TickBefore(cfg, Worn(cfg, i, k * interval, maxDelay), interval, es, interval, plan, hs);
      es := [Tick(interval)] + es;
    }
  }

  lemma FailOnce(cfg: Config, i: nat, k: nat, now: nat, es: seq<Event>, interval: nat, maxDelay: nat, n: nat,
                 plan: Schedules)
      returns (all: seq<Event>)
    requires i < |cfg.holders| && k < n && now == (k + 1) * interval
    requires Breaks(cfg, Worn(cfg, i, now, maxDelay), es, interval, plan,
                    NoHolds(cfg)[i := WornHold(n, maxDelay, k + 1)])
    ensures Breaks(cfg, Worn(cfg, i, now, maxDelay), all, interval, plan, NoHolds(cfg)[i := WornHold(n, maxDelay, k)])
  {
    hide Breaks;
    var w := T.Worst(n, maxDelay);
    assert w[k + 1] == T.Attempt(0, 0, false);
    assert T.LandsAt(w, interval, k + 1) == now;
    all := RenewFails(cfg, i, Worn(cfg, i, now, maxDelay), cfg.ttl - maxDelay, es, interval, plan,
                      WornHold(n, maxDelay, k));
  }

  /** With calls that take at most `maxDelay` and at most `n` failures in a row, every run that
      keeps to its schedules has at most one adapter. */
  ghost predicate ExclusiveOnTime(cfg: Config, interval: nat, maxDelay: nat, n: nat) {
    forall es, plan: Schedules ::
      OnTime(cfg, Init(cfg), es, interval, plan, NoHolds(cfg)) && Run(cfg, Init(cfg), es).Reached?
      && (forall i, t :: T.Admissible(plan(i, t), maxDelay, n))
      ==> AtMostOneAdapter(Run(cfg, Init(cfg), es).state)
  }

  lemma SharedBreaks(cfg: Config, i: nat, j: nat, interval: nat, maxDelay: nat, n: nat)
    requires i < j < |cfg.holders| && cfg.holders[i] == cfg.holders[j]
    ensures !ExclusiveOnTime(cfg, interval, maxDelay, n)
  {
    var plan := (k: nat, t: int) => Quick();
    QuickAdmissible(maxDelay, n);
    var es := Steal(cfg, i, j, 0, cfg.ttl, interval, plan, Hold(Quick(), 0, 1));
    es := StartFirst(cfg, i, 0, interval, plan, es);
  }

  lemma SlowBreaks(cfg: Config, interval: nat, maxDelay: nat, n: nat)
    requires |cfg.holders| >= 2 && (n + 1) * interval + 2 * maxDelay > cfg.ttl
    ensures !ExclusiveOnTime(cfg, interval, maxDelay, n)
  {
    var plan := (k: nat, t: int) => if k == 0 then T.Worst(n, maxDelay) else Quick();
    QuickAdmissible(maxDelay, n);
    T.WorstAdmissible(n, maxDelay);
    assert T.Worst(n, maxDelay)[0] == T.Attempt(maxDelay, 0, true);
    hide T.Worst, T.Admissible, Quick;
    var es := FailOn(cfg, 0, 1, 0, interval, maxDelay, n, plan);
    assert 0 * interval == 0;
    es := StartFirst(cfg, 0, maxDelay, interval, plan, es);
  }

  /** For two runners or more the gate excludes a second adapter from every run on time exactly if
      no two share a holder id and (n + 1) intervals and twice the delay fit into the TTL. */
  lemma ExclusionBound(cfg: Config, interval: nat, maxDelay: nat, n: nat)
    requires |cfg.holders| >= 2
    ensures ExclusiveOnTime(cfg, interval, maxDelay, n) <==>
            Injective(cfg) && (n + 1) * interval + 2 * maxDelay <= cfg.ttl
  {
    if !Injective(cfg) {
      var i, j :| 0 <= i < j < |cfg.holders| && cfg.holders[i] == cfg.holders[j];
      SharedBreaks(cfg, i, j, interval, maxDelay, n);
    } else if (n + 1) * interval + 2 * maxDelay > cfg.ttl {
      SlowBreaks(cfg, interval, maxDelay, n);
    } else {
      forall es, plan: Schedules |
        OnTime(cfg, Init(cfg), es, interval, plan, NoHolds(cfg)) && Run(cfg, Init(cfg), es).Reached?
        && forall i, t :: T.Admissible(plan(i, t), maxDelay, n)
        ensures AtMostOneAdapter(Run(cfg, Init(cfg), es).state)
      {
        PunctualRunsAreExclusive(cfg, es, interval, plan, maxDelay, n);
      }
    }
  }
}
