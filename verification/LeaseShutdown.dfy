/** A run of the channel lease in which a shutdown keeps the row (internal/channels/lease.go). */
module LeaseShutdown {
  import opened Lease

  /** A shutdown that keeps the row: ending the parent context also stops the renewer, so the
      select may leave through the renewer's exit, and that branch does not release. */
  lemma ShutdownWithoutRelease(ttl: nat) returns (es: seq<Event>)
    ensures var cfg := Config([0], ttl);
            var end := Run(cfg, Init(cfg), es);
            && NeverLapses(cfg, Init(cfg), es) && end.Reached? && |end.state.runners| == 1
            && end.state.runners[0].pc.Returned? && end.state.runners[0].ctxDone
            && !end.state.runners[0].released && Owns(end.state.row, 0)
  {
    var cfg, row := Config([0], ttl), Row(0, ttl);
    var r4 := Runner(Selecting, true, false, 1, 0, Held, false, ttl);
    es := LoseRenewerOnShutdown(ttl, r4);
    var s4 := State(0, row, [r4]);
    var s2 := State(0, row, [r4.(ctxDone := false, renewers := 1)]);
    var s3 := State(0, row, [r4.(renewers := 1)]);
    Prepend(cfg, s3, RenewerStops(0), s4, es);
    Prepend(cfg, s2, CtxEnds(0), s3, [RenewerStops(0)] + es);
    var es2 := [CtxEnds(0)] + ([RenewerStops(0)] + es);
    var s1 := State(0, NoRow, [IDLE.(pc := Acquiring)]);
    Prepend(cfg, s1, AcquireOk(0, 0), s2, es2);
    assert Init(cfg).runners == [IDLE];
    Prepend(cfg, Init(cfg), CheckCtx(0), s1, [AcquireOk(0, 0)] + es2);
    es := [CheckCtx(0)] + ([AcquireOk(0, 0)] + es2);
  }

  lemma LoseRenewerOnShutdown(ttl: nat, r4: Runner) returns (es: seq<Event>)
    requires r4 == Runner(Selecting, true, false, 1, 0, Held, false, ttl)
    ensures var cfg := Config([0], ttl);
            var s4 := State(0, Row(0, ttl), [r4]);
            && NeverLapses(cfg, s4, es)
            && Run(cfg, s4, es) == Reached(State(0, Row(0, ttl), [Runner(Returned, true, true, 0, 0, ViaLost, false, ttl)]))
  {
    var cfg, row := Config([0], ttl), Row(0, ttl);
    var r5 := r4.(pc := Draining, cancelled := true, exit := ViaLost);
    var s4, s5 := State(0, row, [r4]), State(0, row, [r5]);
    var s6 := State(0, row, [r5.(starts := 0)]);
    var s7 := State(0, row, [r5.(starts := 0, pc := Sleeping)]);
    var s8 := State(0, row, [r5.(starts := 0, pc := Returned)]);
    assert Run(cfg, s8, []) == Reached(s8) && NeverLapses(cfg, s8, []);
    hide Run, NeverLapses;
    Prepend(cfg, s7, SleepCut(0), s8, []);
    Prepend(cfg, s6, Drained(0), s7, [SleepCut(0)] + []);
    Prepend(cfg, s5, StartReturns(0), s6, [Drained(0)] + ([SleepCut(0)] + []));
    es := [StartReturns(0)] + ([Drained(0)] + ([SleepCut(0)] + []));
    Prepend(cfg, s4, SelectRenewExit(0), s5, es);
    es := [SelectRenewExit(0)] + es;
  }
}
