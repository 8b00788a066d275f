/** The cross-process singleton gate of internal/channels/lease.go: any number of goroutines
    in runWithLease compete for one (channel, account) row. The row follows the SQL store
    (internal/store/database.go); a row that a store evicts after its expiry, as Redis does
    (internal/rediscoord/lease.go), is a step of its own.

    One event is one action of one goroutine. A time stamp `at` in an event is the clock
    reading the caller took before its statement ran: it may lie in the past, but not before
    the reading of the same runner's last successful call. */
module Lease {

  type Holder = nat

  datatype Config = Config(holders: seq<Holder>, ttl: nat)

  datatype Row = NoRow | Row(holder: Holder, expires: int)

  /** Where the runWithLease goroutine is. */
  datatype Pc =
    | Top           // the ctx check at the head of the loop
    | Acquiring     // calling Acquire
    | Selecting     // adapter and renewer spawned, blocked in the select
    | Draining      // child cancelled, waiting for Start to return
    | JoiningRenewer // adapter exited by itself, waiting for the renewer
    | Releasing     // calling Release
    | Sleeping      // sleepOrDone
    | Returned

  /** The select branch that ended the current hold. */
  datatype Exit = Held | ViaCtx | ViaDone | ViaLost

  datatype Runner = Runner(
    pc: Pc,
    ctxDone: bool,     // the parent context has ended
    cancelled: bool,   // childCancel was called
    starts: nat,       // Start calls that have not returned
    renewers: nat,     // renewal goroutines that have not exited
    exit: Exit,
    released: bool,    // Release was called for the current hold
    until: int)        // expiry written by this runner's last successful Acquire or Renew

  datatype State = State(now: int, row: Row, runners: seq<Runner>)

  datatype Event =
    | Tick(d: nat)
    | Evict
    | CtxEnds(i: nat)
    | CheckCtx(i: nat)
    | AcquireOk(i: nat, at: int)
    | AcquireNo(i: nat)
    | AcquireError(i: nat, at: int, applied: bool)
    | StartReturns(i: nat)
    | RenewOk(i: nat, at: int)
    | RenewLost(i: nat)
    | RenewError(i: nat, at: int, applied: bool)
    | RenewerStops(i: nat)
    | SelectCtx(i: nat)
    | SelectDone(i: nat)
    | SelectRenewExit(i: nat)
    | Drained(i: nat)
    | RenewerJoined(i: nat)
    | Release(i: nat, applied: bool)
    | Wake(i: nat)
    | SleepCut(i: nat)

  const IDLE: Runner := Runner(Top, false, false, 0, 0, Held, false, 0)

  function Init(cfg: Config): State {
    State(0, NoRow, seq(|cfg.holders|, i => IDLE))
  }

  // ----- the store -----

  predicate CanAcquire(row: Row, h: Holder, at: int) {
    row.NoRow? || row.holder == h || row.expires < at
  }

  predicate Owns(row: Row, h: Holder) {
    row.Row? && row.holder == h
  }

  // ----- one step -----

  predicate Enabled(cfg: Config, s: State, e: Event)
    requires |s.runners| == |cfg.holders|
  {
    match e
    case Tick(_) => true
    case Evict => s.row.Row? && s.row.expires < s.now
    case _ =>
      && e.i < |s.runners|
      && var r := s.runners[e.i];
         var h := cfg.holders[e.i];
         match e
         case CtxEnds(_) => true
         case CheckCtx(_) => r.pc.Top?
         case AcquireOk(_, at) => r.pc.Acquiring? && at <= s.now && CanAcquire(s.row, h, at)
         case AcquireNo(_) => r.pc.Acquiring?
         case AcquireError(_, at, applied) =>
           r.pc.Acquiring? && at <= s.now && (applied ==> CanAcquire(s.row, h, at))
         case StartReturns(_) => r.starts > 0
         case RenewOk(_, at) => r.renewers > 0 && r.until - cfg.ttl <= at <= s.now && Owns(s.row, h)
         case RenewLost(_) => r.renewers > 0 && !Owns(s.row, h)
         case RenewError(_, at, applied) =>
           r.renewers > 0 && r.until - cfg.ttl <= at <= s.now && (applied ==> Owns(s.row, h))
         case RenewerStops(_) => r.renewers > 0 && (r.cancelled || r.ctxDone)
         case SelectCtx(_) => r.pc.Selecting? && r.ctxDone
         case SelectDone(_) => r.pc.Selecting? && r.starts == 0
         case SelectRenewExit(_) => r.pc.Selecting? && r.renewers == 0
         case Drained(_) => r.pc.Draining? && r.starts == 0
         case RenewerJoined(_) => r.pc.JoiningRenewer? && r.renewers == 0
         case Release(_, _) => r.pc.Releasing?
         case Wake(_) => r.pc.Sleeping?
         case SleepCut(_) => r.pc.Sleeping? && r.ctxDone
  }

  function NextRow(cfg: Config, s: State, e: Event): Row
    requires |s.runners| == |cfg.holders| && Enabled(cfg, s, e)
  {
    match e
    case Evict => NoRow
    case AcquireOk(i, at) => Row(cfg.holders[i], at + cfg.ttl)
    case AcquireError(i, at, true) => Row(cfg.holders[i], at + cfg.ttl)
    case RenewOk(i, at) => Row(cfg.holders[i], at + cfg.ttl)
    case RenewError(i, at, true) => Row(cfg.holders[i], at + cfg.ttl)
    case Release(i, true) => if Owns(s.row, cfg.holders[i]) then NoRow else s.row
    case _ => s.row
  }

  function NextRunner(cfg: Config, r: Runner, e: Event): Runner
    requires e.StartReturns? ==> r.starts > 0
    requires e.RenewLost? || e.RenewerStops? ==> r.renewers > 0
  {
    match e
    case Tick(_) => r
    case Evict => r
    case CtxEnds(_) => r.(ctxDone := true)
    case CheckCtx(_) => r.(pc := if r.ctxDone then Returned else Acquiring)
    case AcquireOk(_, at) =>
      r.(pc := Selecting, cancelled := false, starts := r.starts + 1, renewers := r.renewers + 1,
         exit := Held, released := false, until := at + cfg.ttl)
    case AcquireNo(_) => r.(pc := Sleeping)
    case AcquireError(_, _, _) => r.(pc := Sleeping)
    case StartReturns(_) => r.(starts := r.starts - 1)
    case RenewOk(_, at) => r.(until := at + cfg.ttl)
    case RenewLost(_) => r.(renewers := r.renewers - 1)
    case RenewError(_, _, _) => r
    case RenewerStops(_) => r.(renewers := r.renewers - 1)
    case SelectCtx(_) => r.(pc := Draining, cancelled := true, exit := ViaCtx)
    case SelectDone(_) => r.(pc := JoiningRenewer, cancelled := true, exit := ViaDone)
    case SelectRenewExit(_) => r.(pc := Draining, cancelled := true, exit := ViaLost)
    case Drained(_) => r.(pc := if r.exit.ViaLost? then Sleeping else Releasing)
    case RenewerJoined(_) => r.(pc := Releasing)
    case Release(_, _) => r.(pc := if r.exit.ViaCtx? then Returned else Sleeping, released := true)
    case Wake(_) => r.(pc := Top)
    case SleepCut(_) => r.(pc := Returned)
  }

  function Next(cfg: Config, s: State, e: Event): (s': State)
    requires |s.runners| == |cfg.holders| && Enabled(cfg, s, e)
    ensures |s'.runners| == |s.runners|
  {
    var row := NextRow(cfg, s, e);
    match e
    case Tick(d) => s.(now := s.now + d)
    case Evict => s.(row := row)
    case _ => s.(row := row, runners := s.runners[e.i := NextRunner(cfg, s.runners[e.i], e)])
  }

  // ----- runs -----

  /** The state after the events, or None if one of them was not enabled. */
  datatype Outcome = Stuck | Reached(state: State)

  function Run(cfg: Config, s: State, es: seq<Event>): Outcome
    requires |s.runners| == |cfg.holders|
    decreases |es|
  {
    if es == [] then Reached(s)
    else if !Enabled(cfg, s, es[0]) then Stuck
    else Run(cfg, Next(cfg, s, es[0]), es[1..])
  }

  /** Every adapter that is running does so before the expiry its runner last wrote. */
  predicate NoLapse(s: State) {
    forall i :: 0 <= i < |s.runners| && s.runners[i].starts > 0 ==> s.now <= s.runners[i].until
  }

  predicate NeverLapses(cfg: Config, s: State, es: seq<Event>)
    requires |s.runners| == |cfg.holders|
    decreases |es|
  {
    NoLapse(s) && (es != [] && Enabled(cfg, s, es[0]) ==> NeverLapses(cfg, Next(cfg, s, es[0]), es[1..]))
  }

  // ----- one runner on its own -----

  /** What the control flow of one runner guarantees, whatever the store and the clock do:
      never two adapters or two renewers, no Release and no new Acquire while an adapter runs,
      and a hold that is over was released exactly if the select ended it through the parent
      context or the adapter's own exit. */
  predicate RunnerOk(r: Runner) {
    && r.starts <= 1 && r.renewers <= 1
    && (r.pc in {Top, Acquiring, Sleeping} ==> r.starts == 0 && r.renewers == 0)
    && (r.pc in {JoiningRenewer, Releasing, Returned} ==> r.starts == 0)
    && (r.pc.Draining? ==> r.exit in {ViaCtx, ViaLost})
    && (r.pc.JoiningRenewer? ==> r.exit.ViaDone?)
    && (r.pc.Releasing? ==> r.exit in {ViaCtx, ViaDone})
    && (r.pc.Selecting? ==> r.exit.Held?)
    && (r.exit.ViaDone? && r.pc.Releasing? ==> r.renewers == 0)
    && (r.exit.ViaLost? ==> r.renewers == 0)
    && (r.pc in {Selecting, Draining, JoiningRenewer, Releasing} ==> !r.released)
    && (r.pc in {Top, Acquiring, Sleeping, Returned} ==> (r.released <==> r.exit in {ViaCtx, ViaDone}))
    && (r.exit.ViaCtx? ==> r.pc in {Draining, Releasing, Returned})
    && (r.starts > 0 || r.renewers > 0 ==> r.pc.Selecting? || r.cancelled)
  }

  predicate RunnersOk(s: State) {
    forall i :: 0 <= i < |s.runners| ==> RunnerOk(s.runners[i])
  }

  lemma StepKeepsRunner(cfg: Config, r: Runner, s: State, e: Event)
    requires |s.runners| == |cfg.holders| && Enabled(cfg, s, e) && !e.Tick? && !e.Evict?
    requires r == s.runners[e.i] && RunnerOk(r)
    ensures RunnerOk(NextRunner(cfg, r, e))
  {
  }

  lemma {:induction false} RunKeepsRunners(cfg: Config, s: State, es: seq<Event>)
    requires |s.runners| == |cfg.holders| && RunnersOk(s) && Run(cfg, s, es).Reached?
    ensures RunnersOk(Run(cfg, s, es).state)
    ensures |Run(cfg, s, es).state.runners| == |cfg.holders|
    decreases |es|
  {
    if es != [] {
      if !es[0].Tick? && !es[0].Evict? {
        StepKeepsRunner(cfg, s.runners[es[0].i], s, es[0]);
      }
      RunKeepsRunners(cfg, Next(cfg, s, es[0]), es[1..]);
    }
  }

  // ----- mutual exclusion -----

  predicate Injective(cfg: Config) {
    forall i, j :: 0 <= i < j < |cfg.holders| ==> cfg.holders[i] != cfg.holders[j]
  }

  predicate AtMostOneAdapter(s: State) {
    && (forall i :: 0 <= i < |s.runners| ==> s.runners[i].starts <= 1)
    && (forall i, j :: 0 <= i < j < |s.runners| ==> s.runners[i].starts == 0 || s.runners[j].starts == 0)
  }

  /** A running adapter's row is in the store and good for at least as long as its runner believes. */
  predicate HoldersOwnRow(cfg: Config, s: State)
    requires |s.runners| == |cfg.holders|
  {
    forall i :: 0 <= i < |s.runners| && s.runners[i].starts > 0 ==>
      Owns(s.row, cfg.holders[i]) && s.runners[i].until <= s.row.expires
  }

  lemma StepKeepsRow(cfg: Config, s: State, e: Event)
    requires |s.runners| == |cfg.holders| && Injective(cfg) && RunnersOk(s)
    requires Enabled(cfg, s, e) && NoLapse(s) && HoldersOwnRow(cfg, s)
    ensures HoldersOwnRow(cfg, Next(cfg, s, e))
  {
  }

  lemma {:induction false} RunKeepsRow(cfg: Config, s: State, es: seq<Event>)
    requires |s.runners| == |cfg.holders| && Injective(cfg) && RunnersOk(s) && HoldersOwnRow(cfg, s)
    requires Run(cfg, s, es).Reached? && NeverLapses(cfg, s, es)
    ensures |Run(cfg, s, es).state.runners| == |cfg.holders|
    ensures AtMostOneAdapter(Run(cfg, s, es).state)
    decreases |es|
  {
    if es == [] {
      forall i, j | 0 <= i < j < |s.runners| ensures s.runners[i].starts == 0 || s.runners[j].starts == 0 {
        assert cfg.holders[i] != cfg.holders[j];
      }
    } else {
      StepKeepsRow(cfg, s, es[0]);
      RunKeepsRunners(cfg, s, [es[0]]);
      assert Run(cfg, s, [es[0]]) == Run(cfg, Next(cfg, s, es[0]), []);
      RunKeepsRow(cfg, Next(cfg, s, es[0]), es[1..]);
    }
  }

  /** No run in which no running adapter's lease lapses ever has two adapters running. */
  ghost predicate Exclusive(cfg: Config) {
    forall es :: Run(cfg, Init(cfg), es).Reached? && NeverLapses(cfg, Init(cfg), es) ==>
                   AtMostOneAdapter(Run(cfg, Init(cfg), es).state)
  }

  /** Two runners with one holder id both acquire: the store takes the second call for a renewal. */
  lemma SharedHolderRun(cfg: Config, i: nat, j: nat)
    requires i < j < |cfg.holders| && cfg.holders[i] == cfg.holders[j]
    ensures !Exclusive(cfg)
  {
    var s0 := Init(cfg);
    var s1 := Next(cfg, s0, CheckCtx(i));
    var s2 := Next(cfg, s1, AcquireOk(i, 0));
    var s3 := Next(cfg, s2, CheckCtx(j));
    var s4 := Next(cfg, s3, AcquireOk(j, 0));
    assert s4.runners[i].starts == 1 && s4.runners[j].starts == 1;
    assert Run(cfg, s4, []) == Reached(s4) && NeverLapses(cfg, s4, []);
    hide Run, NeverLapses, NextRunner;
    var es4: seq<Event> := [];
    var es3 := [AcquireOk(j, 0)] + es4;
    var es2 := [CheckCtx(j)] + es3;
    var es1 := [AcquireOk(i, 0)] + es2;
    Prepend(cfg, s3, AcquireOk(j, 0), s4, es4);
    Prepend(cfg, s2, CheckCtx(j), s3, es3);
    Prepend(cfg, s1, AcquireOk(i, 0), s2, es2);
    Prepend(cfg, s0, CheckCtx(i), s1, es1);
  }

  /** The gate excludes a second adapter exactly when no two runners share a holder id. */
  lemma ExclusionTheorem(cfg: Config)
    ensures Exclusive(cfg) <==> Injective(cfg)
  {
    if Injective(cfg) {
      forall es | Run(cfg, Init(cfg), es).Reached? && NeverLapses(cfg, Init(cfg), es)
        ensures AtMostOneAdapter(Run(cfg, Init(cfg), es).state)
      {
        RunKeepsRow(cfg, Init(cfg), es);
      }
    } else {
      var i, j :| 0 <= i < j < |cfg.holders| && cfg.holders[i] == cfg.holders[j];
      SharedHolderRun(cfg, i, j);
    }
  }

  // ----- discipline of one hold -----

  /** In every run, lapsed or not: Release is called and a new adapter is started only when the
      runner's own Start has returned, and a hold that is over was released exactly if the
      select left it through the parent context or the adapter's own exit. */
  lemma HoldDiscipline(cfg: Config, es: seq<Event>, i: nat)
    requires i < |cfg.holders| && Run(cfg, Init(cfg), es).Reached?
    ensures var s := Run(cfg, Init(cfg), es).state;
      && |s.runners| == |cfg.holders|
      && (forall applied :: Enabled(cfg, s, Release(i, applied)) ==> s.runners[i].starts == 0)
      && (forall at :: Enabled(cfg, s, AcquireOk(i, at)) ==> s.runners[i].starts == 0 && s.runners[i].renewers == 0)
      && (s.runners[i].pc in {Top, Acquiring, Sleeping, Returned} ==>
            (s.runners[i].released <==> s.runners[i].exit in {ViaCtx, ViaDone}))
  {
    RunKeepsRunners(cfg, Init(cfg), es);
  }

  lemma Prepend(cfg: Config, s: State, e: Event, s': State, es: seq<Event>)
    requires |s.runners| == |s'.runners| == |cfg.holders| && Enabled(cfg, s, e) && Next(cfg, s, e) == s'
    requires NoLapse(s) && NeverLapses(cfg, s', es)
    ensures Run(cfg, s, [e] + es) == Run(cfg, s', es) && NeverLapses(cfg, s, [e] + es)
  {
    assert ([e] + es)[1..] == es;
  }

  // ----- who may take the row -----

  predicate Waits(cfg: Config, s: State, i: nat)
    requires |s.runners| == |cfg.holders|
  {
    i < |s.runners| && s.runners[i].pc.Acquiring?
  }

  /** A row keeps every other holder out, up to and including its last moment, and no one after it. */
  lemma RowKeepsOut(cfg: Config, s: State, i: nat, at: int)
    requires |s.runners| == |cfg.holders| && Waits(cfg, s, i) && at <= s.now
    ensures Enabled(cfg, s, AcquireOk(i, at)) <==>
            s.row.Row? ==> s.row.holder == cfg.holders[i] || s.row.expires < at
    ensures Enabled(cfg, s, AcquireOk(i, at)) ==>
              var s' := Next(cfg, s, AcquireOk(i, at));
              && s'.row == Row(cfg.holders[i], at + cfg.ttl) && s'.runners[i].starts == s.runners[i].starts + 1
              && s'.runners[i].pc.Selecting?
  {
  }

  /** A renewal moves the expiry of the holder's own row and leaves the adapters alone; without the
      row it is refused. */
  lemma RenewalKeepsRow(cfg: Config, s: State, i: nat, at: int)
    requires |s.runners| == |cfg.holders| && i < |s.runners| && s.runners[i].renewers > 0
    ensures Enabled(cfg, s, RenewOk(i, at)) ==>
              var s' := Next(cfg, s, RenewOk(i, at));
              && Owns(s.row, cfg.holders[i]) && s'.row == Row(cfg.holders[i], at + cfg.ttl)
              && forall j :: 0 <= j < |s.runners| ==> s'.runners[j].starts == s.runners[j].starts
    ensures Enabled(cfg, s, RenewLost(i)) <==> !(s.row.Row? && s.row.holder == cfg.holders[i])
  {
  }

  /** After a Release by its owner, a row is anybody's at once; a Release by someone else, or one
      that does not reach the store, leaves the row as it is. */
  lemma ReleaseHandsOver(cfg: Config, s: State, i: nat, applied: bool, j: nat, at: int)
    requires |s.runners| == |cfg.holders| && Enabled(cfg, s, Release(i, applied))
    requires i != j && Waits(cfg, s, j) && at <= s.now
    ensures var s' := Next(cfg, s, Release(i, applied));
            && |s'.runners| == |cfg.holders|
            && (if applied && s.row.Row? && s.row.holder == cfg.holders[i] then s'.row.NoRow? else s'.row == s.row)
            && (s'.row.NoRow? ==> Enabled(cfg, s', AcquireOk(j, at)))
  {
  }

  // ----- a runner whose renewals fail -----

  /** However often a renewal fails with an error, and however long that takes: the adapter goes on,
      and nothing is cancelled or released. */
  lemma {:induction false} ErrorsKeepAdapter(cfg: Config, s: State, es: seq<Event>, i: nat)
    requires |s.runners| == |cfg.holders| && i < |s.runners| && Run(cfg, s, es).Reached?
    requires forall e :: e in es ==> e.Tick? || (e.RenewError? && e.i == i)
    ensures Run(cfg, s, es).state.runners == s.runners
    decreases |es|
  {
    if es != [] {
      assert es[0] in es && forall e :: e in es[1..] ==> e in es;
      ErrorsKeepAdapter(cfg, Next(cfg, s, es[0]), es[1..], i);
    }
  }

  // ----- a runner that lost its row -----

  predicate Acquires(e: Event, i: nat) {
    (e.AcquireOk? || (e.AcquireError? && e.applied)) && e.i == i
  }

  /** The select ends the current hold and cancels the adapter. */
  predicate Leaves(e: Event, i: nat) {
    (e.SelectCtx? || e.SelectDone? || e.SelectRenewExit?) && e.i == i
  }

  /** Once its row is gone, a runner never renews again until it acquires anew. Its first Renew
      that is not an error stops its renewer, and from then on its adapter has returned, or has
      been cancelled, or the select is ready to cancel it; once cancelled it stays so. */
  lemma {:induction false} LostStaysLost(cfg: Config, s: State, es: seq<Event>, i: nat)
    requires |s.runners| == |cfg.holders| && i < |cfg.holders| && Injective(cfg) && RunnersOk(s)
    requires !Owns(s.row, cfg.holders[i]) && Run(cfg, s, es).Reached?
    requires forall e :: e in es ==> !Acquires(e, i)
    ensures |Run(cfg, s, es).state.runners| == |cfg.holders|
    ensures !Owns(Run(cfg, s, es).state.row, cfg.holders[i])
    ensures forall e :: e in es && e.RenewOk? ==> e.i != i
    ensures RenewLost(i) in es || s.runners[i].renewers == 0 ==> Run(cfg, s, es).state.runners[i].renewers == 0
    ensures var end := Run(cfg, s, es).state;
            var r := end.runners[i];
            && (r.renewers == 0 ==> r.starts == 0 || r.cancelled || Enabled(cfg, end, SelectRenewExit(i)))
            && (s.runners[i].cancelled || (exists e :: e in es && Leaves(e, i)) ==> r.cancelled)
    decreases |es|
  {
    if es != [] {
      var e, s' := es[0], Next(cfg, s, es[0]);
      assert e in es;
      if !e.Tick? && !e.Evict? {
        StepKeepsRunner(cfg, s.runners[e.i], s, e);
      }
      assert !Owns(s'.row, cfg.holders[i]) by {
        if !e.Tick? && !e.Evict? && e.i != i { assert cfg.holders[e.i] != cfg.holders[i]; }
      }
      LostStaysLost(cfg, s', es[1..], i);
      assert forall x :: x in es ==> x == e || x in es[1..];
    }
  }
}
