/** The long-poll loop of the WeChat adapter (internal/channels/wechat.go): cursor, expiry
    counter and backoff. Server replies, disk outcomes and cancellation come from a script. */
module WeChat {
  import opened Options

  const SESSION_EXPIRED: int := -14
  const EMPTY_BUF_THRESHOLD: nat := 20
  const BACKOFF_INITIAL: nat := 3
  const BACKOFF_MAX: nat := 60

  datatype Reply =
    | TransportError
    | Response(ret: int, errCode: int, buf: string)

  /** What a write of the cursor file does: it succeeds, leaves the old file, or damages it. */
  datatype Write = Written | Kept | Damaged

  datatype Poll = Poll(reply: Reply, write: Write)

  datatype File = Missing | Corrupt | Cursor(buf: string)

  /** The fields of the adapter that the loop updates, the file on disk and the number of
      onExpired calls so far. */
  datatype Mem = Mem(buf: string, file: File, failures: nat, count: nat, fired: nat)

  datatype Phase = Running(mem: Mem) | Stopped(mem: Mem)

  // ----- backoff -----

  function Pow2(n: nat): (r: nat)
    ensures r > 0
  {
    if n == 0 then 1 else 2 * Pow2(n - 1)
  }

  function Min(a: nat, b: nat): nat {
    if a <= b then a else b
  }

  /** Three seconds doubled with every failure after the first, up to a minute. */
  function Backoff(failures: nat): nat {
    if failures == 0 then BACKOFF_INITIAL else Min(BACKOFF_INITIAL * Pow2(failures - 1), BACKOFF_MAX)
  }

  lemma {:induction false} Pow2Grows(a: nat, b: nat)
    requires a <= b
    ensures Pow2(a) <= Pow2(b)
  {
    if a < b {
      Pow2Grows(a, b - 1);
    }
  }

  method CalcBackoff(failures: nat) returns (d: nat)
    ensures d == Backoff(failures)
  {
    d := BACKOFF_INITIAL;
    var i := 1;
    while i < failures
      invariant 1 <= i && (i <= failures || (failures == 0 && i == 1))
      invariant d == BACKOFF_INITIAL * Pow2(i - 1) <= BACKOFF_MAX
    {
      d := d * 2;
      assert d == BACKOFF_INITIAL * Pow2(i);
      if d > BACKOFF_MAX {
        Pow2Grows(i, failures - 1);
        return BACKOFF_MAX;
      }
      i := i + 1;
    }
  }

  // ----- the loop body as a function -----

  function Save(file: File, buf: string, w: Write): File {
    match w
    case Written => Cursor(buf)
    case Kept => file
    case Damaged => Corrupt
  }

  function Load(m: Mem): Mem {
    if m.file.Cursor? then m.(buf := m.file.buf) else m
  }

  predicate IsExpired(r: Reply) {
    r.Response? && r.errCode == SESSION_EXPIRED
  }

  predicate IsServerError(r: Reply) {
    r.Response? && !IsExpired(r) && r.ret != 0 && r.errCode != 0
  }

  /** A reply the loop takes for a success; a non-zero code in only one of the two fields counts too. */
  predicate IsAccepted(r: Reply) {
    r.Response? && !IsExpired(r) && !IsServerError(r)
  }

  function Step(m: Mem, p: Poll): Phase {
    match p.reply
    case TransportError => Running(m.(failures := m.failures + 1))
    case Response(_, _, buf) =>
      var m := m.(failures := 0);
      if IsExpired(p.reply) then
        if m.buf != "" then Running(m.(buf := "", file := Save(m.file, "", p.write)))
        else if m.count + 1 < EMPTY_BUF_THRESHOLD then
          Running(m.(count := m.count + 1, failures := m.count + 1))
        else
          Stopped(m.(count := m.count + 1, fired := m.fired + 1,
                     file := if p.write.Written? then Missing else m.file))
      else if IsServerError(p.reply) then Running(m)
      else if buf != "" && buf != m.buf then
        Running(m.(count := 0, buf := buf, file := Save(m.file, buf, p.write)))
      else Running(m.(count := 0))
  }

  /** The state after the polls; nothing happens any more once the loop has stopped. */
  function After(m: Mem, polls: seq<Poll>): Phase {
    if polls == [] then Running(m) else
      match After(m, polls[..|polls| - 1])
      case Running(x) => Step(x, polls[|polls| - 1])
      case Stopped(x) => Stopped(x)
  }

  // ----- the expiry machine -----

  /** The number of SessionExpired replies to an empty cursor since the last accepted reply,
      counted on from where the adapter stood; transport and server errors neither count nor
      interrupt the series. */
  function Streak(m: Mem, polls: seq<Poll>): nat {
    if polls == [] then m.count else
      var front, p := polls[..|polls| - 1], polls[|polls| - 1];
      if IsAccepted(p.reply) then 0
      else if IsExpired(p.reply) && After(m, front).mem.buf == "" then Streak(m, front) + 1
      else Streak(m, front)
  }

  /** For every adapter, also one that has stopped before, and every script: while the loop runs the
      counter is the length of the current series and onExpired has not been called; a loop that
      stops by itself has called onExpired once. */
  lemma {:induction false} ExpiryExact(m: Mem, polls: seq<Poll>)
    ensures var a := After(m, polls);
      && (a.Running? ==> a.mem.count == Streak(m, polls) && a.mem.fired == m.fired)
      && (a.Running? && m.count < EMPTY_BUF_THRESHOLD ==> a.mem.count < EMPTY_BUF_THRESHOLD)
      && (a.Running? && (m.count > 0 ==> m.buf == "") ==> (a.mem.count > 0 ==> a.mem.buf == ""))
      && (a.Stopped? ==> a.mem.fired == m.fired + 1 && a.mem.buf == "" && a.mem.count >= EMPTY_BUF_THRESHOLD)
      && (a.Stopped? && m.count < EMPTY_BUF_THRESHOLD ==> a.mem.count == EMPTY_BUF_THRESHOLD)
  {
    if polls != [] {
      ExpiryExact(m, polls[..|polls| - 1]);
    }
  }

  lemma {:induction false} StaysStopped(m: Mem, polls: seq<Poll>, k: nat)
    requires k <= |polls| && After(m, polls[..k]).Stopped?
    ensures After(m, polls) == After(m, polls[..k])
  {
    if k < |polls| {
      assert polls[..|polls| - 1][..k] == polls[..k];
      StaysStopped(m, polls[..|polls| - 1], k);
    } else {
      assert polls[..k] == polls;
    }
  }

  // ----- the pauses -----

  /** The failures in a row, told from the script: the transport errors since the last response, on
      top of what the adapter brought along if there was no response yet, and of the length of the
      series if that response was an expiry with an empty cursor. */
  function InARow(m: Mem, polls: seq<Poll>): nat {
    if polls == [] then m.failures else
      var front, p := polls[..|polls| - 1], polls[|polls| - 1];
      if p.reply.TransportError? then InARow(m, front) + 1
      else if IsExpired(p.reply) && After(m, front).mem.buf == "" then Streak(m, polls)
      else 0
  }

  lemma {:induction false} FailuresAre(m: Mem, polls: seq<Poll>)
    ensures After(m, polls).Running? ==> After(m, polls).mem.failures == InARow(m, polls)
  {
    if polls != [] {
      FailuresAre(m, polls[..|polls| - 1]);
      ExpiryExact(m, polls[..|polls| - 1]);
      ExpiryExact(m, polls);
    }
  }

  /** The pause, in seconds, after `f` failures in a row. */
  function PauseAfter(f: nat): nat {
    if f == 0 then 3 else Min(3 * Pow2(f - 1), 60)
  }

  /** The pause after the last of these polls, if there is one: after a transport error, after an
      expiry that drops a cursor, and after an expiry with an empty cursor below the threshold. */
  function PauseAt(m: Mem, polls: seq<Poll>): Option<nat>
    requires polls != []
  {
    var before, p := After(m, polls[..|polls| - 1]), polls[|polls| - 1];
    if before.Stopped? then None
    else if p.reply.TransportError? then Some(PauseAfter(InARow(m, polls)))
    else if !IsExpired(p.reply) then None
    else if before.mem.buf != "" then Some(5)
    else if Streak(m, polls) < 20 then Some(PauseAfter(Streak(m, polls)))
    else None
  }

  /** The pauses over the script, in order. */
  function Pauses(m: Mem, polls: seq<Poll>): seq<nat> {
    if polls == [] then []
    else Pauses(m, polls[..|polls| - 1]) + match PauseAt(m, polls) case None => [] case Some(w) => [w]
  }

  /** What the loop computes when it pauses is that pause. */
  lemma NextPause(m: Mem, polls: seq<Poll>, k: nat)
    requires k < |polls| && After(m, polls[..k]).Running?
    ensures var x, p := After(m, polls[..k]).mem, polls[k];
            Pauses(m, polls[..k + 1]) == Pauses(m, polls[..k]) +
              if p.reply.TransportError? then [Backoff(x.failures + 1)]
              else if IsExpired(p.reply) && x.buf != "" then [5]
              else if IsExpired(p.reply) && x.count + 1 < EMPTY_BUF_THRESHOLD then [Backoff(x.count + 1)]
              else []
  {
    hide Pow2;
    assert polls[..k + 1][..k] == polls[..k];
    FailuresAre(m, polls[..k]);
    ExpiryExact(m, polls[..k]);
  }

  lemma {:induction false} PausesStay(m: Mem, polls: seq<Poll>, k: nat)
    requires k <= |polls| && After(m, polls[..k]).Stopped?
    ensures Pauses(m, polls) == Pauses(m, polls[..k])
  {
    if k < |polls| {
      var front := polls[..|polls| - 1];
      assert front[..k] == polls[..k];
      PausesStay(m, front, k);
      StaysStopped(m, front, k);
    } else {
      assert polls[..k] == polls;
    }
  }

  lemma NoPauses(m: Mem, polls: seq<Poll>)
    ensures Pauses(m, polls[..0]) == []
  {
  }

  lemma {:induction false} PausesBounded(m: Mem, polls: seq<Poll>)
    ensures forall w :: w in Pauses(m, polls) ==> 3 <= w <= 60
  {
    if polls != [] {
      PausesBounded(m, polls[..|polls| - 1]);
    }
  }

  // ----- the adapter -----

  class Adapter {
    var getUpdatesBuf: string
    var file: File
    var failures: nat
    var emptyBufExpiredCount: nat
    var fired: nat  // calls of onExpired

    function State(): Mem
      reads this
    {
      Mem(getUpdatesBuf, file, failures, emptyBufExpiredCount, fired)
    }

    constructor (file: File)
      ensures State() == Mem("", file, 0, 0, 0)
    {
      getUpdatesBuf, this.file, failures, emptyBufExpiredCount, fired := "", file, 0, 0, 0;
    }

    method LoadBuf()
      modifies this`getUpdatesBuf
      ensures State() == Load(old(State()))
    {
      if file.Cursor? {
        getUpdatesBuf := file.buf;
      }
    }

    method SaveBuf(w: Write)
      modifies this`file
      ensures State() == old(State()).(file := Save(old(file), getUpdatesBuf, w))
    {
      match w {
        case Written => file := Cursor(getUpdatesBuf);
        case Kept =>
        case Damaged => file := Corrupt;
      }
    }

    /** The poll loop until it stops by itself or the context ends, which is after the last
        poll of the script. `waits` are the pauses it made, in seconds. */
    method Start(polls: seq<Poll>) returns (waits: seq<nat>)
      modifies this
      ensures State() == After(Load(old(State())), polls).mem
      ensures waits == Pauses(Load(old(State())), polls)
    {
      hide Pauses, Backoff;
      LoadBuf();
      waits := [];
      ghost var m0 := State();
      NoPauses(m0, polls);
      assert polls[..|polls|] == polls;
      for k := 0 to |polls|
        invariant After(m0, polls[..k]) == Running(State())
        invariant waits == Pauses(m0, polls[..k])
      {
        assert polls[..k + 1][..k] == polls[..k];
        NextPause(m0, polls, k);
        var p := polls[k];
        if p.reply.TransportError? {
          failures := failures + 1;
          var backoff := CalcBackoff(failures);
          waits := waits + [backoff];
          continue;
        }
        var resp := p.reply;
        failures := 0;
        if resp.errCode == SESSION_EXPIRED {
          if getUpdatesBuf != "" {
            getUpdatesBuf := "";
            SaveBuf(p.write);
            waits := waits + [5];
            continue;
          }
          emptyBufExpiredCount := emptyBufExpiredCount + 1;
          if emptyBufExpiredCount < EMPTY_BUF_THRESHOLD {
            failures := emptyBufExpiredCount;
            var backoff := CalcBackoff(failures);
            waits := waits + [backoff];
            continue;
          }
          if p.write.Written? {
            file := Missing;
          }
          fired := fired + 1;
          StaysStopped(m0, polls, k + 1);
          PausesStay(m0, polls, k + 1);
          return;
        }
        if resp.ret != 0 && resp.errCode != 0 {
          continue;
        }
        if emptyBufExpiredCount > 0 {
          emptyBufExpiredCount := 0;
        }
        if resp.buf != "" && resp.buf != getUpdatesBuf {
          getUpdatesBuf := resp.buf;
          SaveBuf(p.write);
        }
      }
    }
  }

  // ----- when the loop stops -----

  /** The k-th poll is an expiry that a running loop meets with an empty cursor, and with it the
      series has at least twenty. */
  predicate Completes(m: Mem, polls: seq<Poll>, k: nat) {
    && 0 < k <= |polls| && After(m, polls[..k - 1]).Running?
    && IsExpired(polls[k - 1].reply) && After(m, polls[..k - 1]).mem.buf == ""
    && Streak(m, polls[..k]) >= EMPTY_BUF_THRESHOLD
  }

  /** The loop stops by itself, and calls onExpired, exactly at such a poll. */
  lemma {:induction false} StopsIffCompletes(m: Mem, polls: seq<Poll>)
    ensures After(m, polls).Stopped? <==> exists k: nat :: Completes(m, polls, k)
  {
    if polls != [] {
      var n := |polls|;
      var front := polls[..n - 1];
      StopsIffCompletes(m, front);
      ExpiryExact(m, front);
      assert polls[..n] == polls;
      forall k: nat | 0 < k < n ensures Completes(m, polls, k) == Completes(m, front, k) {
        assert front[..k] == polls[..k] && front[..k - 1] == polls[..k - 1] && front[k - 1] == polls[k - 1];
      }
      if After(m, polls).Stopped? && After(m, front).Running? {
        assert Completes(m, polls, n);
      } else if After(m, polls).Stopped? {
        var k: nat :| Completes(m, front, k);
        assert Completes(m, polls, k);
      } else {
        assert !Completes(m, polls, n);
      }
    }
  }

  predicate NoneAccepted(polls: seq<Poll>) {
    forall p :: p in polls ==> !IsAccepted(p.reply)
  }

  /** The number of SessionExpired replies. */
  function Expiries(polls: seq<Poll>): nat {
    if polls == [] then 0
    else Expiries(polls[..|polls| - 1]) + if IsExpired(polls[|polls| - 1].reply) then 1 else 0
  }

  /** How many expiries it takes to stop an adapter that is met by no accepted reply: one to drop
      a cursor it still holds, and then what its counter lacks, but at least one. */
  function Needed(m: Mem): nat {
    (if m.buf == "" then 0 else 1)
    + if m.count + 1 >= EMPTY_BUF_THRESHOLD then 1 else EMPTY_BUF_THRESHOLD - m.count
  }

  /** Until a reply is accepted the number of expiries alone decides. */
  lemma {:induction false} StopsIffEnough(m: Mem, polls: seq<Poll>)
    requires NoneAccepted(polls)
    ensures After(m, polls).Stopped? <==> Expiries(polls) >= Needed(m)
    ensures After(m, polls).Running? ==>
              var (e, x) := (Expiries(polls), After(m, polls).mem);
              if m.buf == "" then x.buf == "" && x.count == m.count + e
              else if e == 0 then x.buf == m.buf && x.count == m.count
              else x.buf == "" && x.count == m.count + e - 1
  {
    if polls != [] {
      var front, p := polls[..|polls| - 1], polls[|polls| - 1];
      assert p in polls && forall q :: q in front ==> q in polls;
      StopsIffEnough(m, front);
    }
  }

  // ----- the cursor on disk -----

  function DiskCursor(f: File): string {
    if f.Cursor? then f.buf else ""
  }

  /** Memory and disk hold the same cursor. */
  predicate Synced(m: Mem) {
    m.buf == DiskCursor(m.file)
  }

  predicate AllWritten(polls: seq<Poll>) {
    forall p :: p in polls ==> p.write.Written?
  }

  lemma {:induction false} WritesKeepSync(m: Mem, polls: seq<Poll>)
    requires Synced(m) && AllWritten(polls)
    ensures Synced(After(m, polls).mem)
  {
    if polls != [] {
      WritesKeepSync(m, polls[..|polls| - 1]);
      assert polls[|polls| - 1] in polls;
    }
  }

  // ----- several Start calls on one adapter -----

  /** The lease gate calls Start again on the same adapter: only the cursor is reloaded. */
  function Sessions(m: Mem, scripts: seq<seq<Poll>>): Mem {
    if scripts == [] then m else
      After(Load(Sessions(m, scripts[..|scripts| - 1])), scripts[|scripts| - 1]).mem
  }

  /** With successful writes the cursor survives any number of restarts, and a positive counter
      means an empty cursor throughout. */
  lemma {:induction false} SessionsKeepSync(m: Mem, scripts: seq<seq<Poll>>)
    requires Synced(m) && (m.count > 0 ==> m.buf == "")
    requires forall s :: s in scripts ==> AllWritten(s)
    ensures var e := Sessions(m, scripts); Synced(e) && (e.count > 0 ==> e.buf == "")
  {
    if scripts != [] {
      var front, last := scripts[..|scripts| - 1], scripts[|scripts| - 1];
      SessionsKeepSync(m, front);
      assert last in scripts;
      WritesKeepSync(Load(Sessions(m, front)), last);
      CounterMeansEmpty(Load(Sessions(m, front)), last);
    }
  }

  lemma {:induction false} CounterMeansEmpty(m: Mem, polls: seq<Poll>)
    requires m.count > 0 ==> m.buf == ""
    ensures var e := After(m, polls).mem; e.count > 0 ==> e.buf == ""
  {
    if polls != [] {
      CounterMeansEmpty(m, polls[..|polls| - 1]);
    }
  }

  // ----- how often onExpired is called -----

  /** The i-th Start meets a poll that completes a series. */
  ghost predicate Fires(m: Mem, scripts: seq<seq<Poll>>, i: nat)
    requires i < |scripts|
  {
    exists k: nat :: Completes(Load(Sessions(m, scripts[..i])), scripts[i], k)
  }

  ghost function Firings(m: Mem, scripts: seq<seq<Poll>>): nat {
    if scripts == [] then 0
    else Firings(m, scripts[..|scripts| - 1]) + if Fires(m, scripts, |scripts| - 1) then 1 else 0
  }

  /** onExpired is called once for each Start that does. */
  lemma {:induction false} CallsAreFirings(m: Mem, scripts: seq<seq<Poll>>)
    ensures Sessions(m, scripts).fired == m.fired + Firings(m, scripts)
  {
    if scripts != [] {
      var front, last := scripts[..|scripts| - 1], scripts[|scripts| - 1];
      CallsAreFirings(m, front);
      ExpiryExact(Load(Sessions(m, front)), last);
      StopsIffCompletes(Load(Sessions(m, front)), last);
    }
  }

  lemma {:induction false} FirstFiring(m: Mem, scripts: seq<seq<Poll>>)
    ensures Firings(m, scripts) >= 1 <==> exists i: nat :: i < |scripts| && Fires(m, scripts, i)
  {
    hide Fires;
    if scripts != [] {
      var n := |scripts| - 1;
      FirstFiring(m, scripts[..n]);
      EarlierFirings(m, scripts);
      if i: nat :| i < |scripts| && Fires(m, scripts, i) {
        if i < n {
          assert Fires(m, scripts[..n], i);
        }
      }
      if i: nat :| i < n && Fires(m, scripts[..n], i) {
        assert Fires(m, scripts, i);
      }
    }
  }

  lemma EarlierFirings(m: Mem, scripts: seq<seq<Poll>>)
    requires scripts != []
    ensures forall i: nat :: i < |scripts| - 1 ==> Fires(m, scripts[..|scripts| - 1], i) == Fires(m, scripts, i)
  {
    forall i: nat | i < |scripts| - 1 ensures Fires(m, scripts[..|scripts| - 1], i) == Fires(m, scripts, i) {
      assert scripts[..|scripts| - 1][..i] == scripts[..i];
    }
  }

  /** Over any number of Starts, onExpired is called more than once exactly if two of them
      each meet a completing poll. */
  lemma {:induction false} CalledTwiceIff(m: Mem, scripts: seq<seq<Poll>>)
    ensures Sessions(m, scripts).fired > m.fired + 1 <==>
            exists i: nat, j: nat :: i < j < |scripts| && Fires(m, scripts, i) && Fires(m, scripts, j)
  {
    CallsAreFirings(m, scripts);
    TwoFirings(m, scripts);
  }

  lemma {:induction false} TwoFirings(m: Mem, scripts: seq<seq<Poll>>)
    ensures Firings(m, scripts) >= 2 <==>
            exists i: nat, j: nat :: i < j < |scripts| && Fires(m, scripts, i) && Fires(m, scripts, j)
  {
    hide Fires;
    if scripts != [] {
      var n := |scripts| - 1;
      TwoFirings(m, scripts[..n]);
      FirstFiring(m, scripts[..n]);
      EarlierFirings(m, scripts);
      if i: nat, j: nat :| i < j < |scripts| && Fires(m, scripts, i) && Fires(m, scripts, j) {
        assert Fires(m, scripts[..n], i);
        if j < n {
          assert Fires(m, scripts[..n], j);
        }
      }
      if Firings(m, scripts) >= 2 {
        if i: nat, j: nat :| i < j < n && Fires(m, scripts[..n], i) && Fires(m, scripts[..n], j) {
          assert Fires(m, scripts, i) && Fires(m, scripts, j);
        } else {
          var i: nat :| i < n && Fires(m, scripts[..n], i);
          assert Fires(m, scripts, i) && Fires(m, scripts, n);
        }
      }
    }
  }

  /** After a stop the next Start fires again, if no reply is accepted first, exactly if it
      meets one expiry, or two if it has loaded a cursor: the counter is not reset by a stop. */
  lemma StopsAgainIff(m: Mem, polls: seq<Poll>, next: seq<Poll>)
    requires After(m, polls).Stopped? && NoneAccepted(next)
    ensures var x := Load(After(m, polls).mem);
            After(x, next).Stopped? <==> Expiries(next) >= if x.buf == "" then 1 else 2
  {
    ExpiryExact(m, polls);
    StopsIffEnough(Load(After(m, polls).mem), next);
  }

  lemma {:induction false} ManyExpiries(n: nat, p: Poll)
    requires IsExpired(p.reply)
    ensures Expiries(seq(n, i => p)) == n && NoneAccepted(seq(n, i => p))
  {
    if n > 0 {
      assert seq(n, i => p)[..n - 1] == seq(n - 1, i => p);
      ManyExpiries(n - 1, p);
    }
  }

  /** Twenty expiries in a first Start and one in a second: onExpired is called twice. */
  lemma CalledTwice(write: Write)
    ensures var p := Poll(Response(0, SESSION_EXPIRED, ""), write);
            Sessions(Mem("", Missing, 0, 0, 0), [seq(20, i => p), [p]]).fired == 2
  {
    var p := Poll(Response(0, SESSION_EXPIRED, ""), write);
    var m, first := Mem("", Missing, 0, 0, 0), seq(20, i => p);
    ManyExpiries(20, p);
    StopsIffEnough(m, first);
    ExpiryExact(m, first);
    var x := After(m, first).mem;
    hide After;
    assert [first, [p]][..1] == [first] && [first][..0] == [];
    assert Sessions(m, [first]) == x;
    NothingOnDisk(m, first);
    assert Expiries([p]) == 1 by { assert [p][..0] == []; }
    StopsIffEnough(Load(x), [p]);
    ExpiryExact(Load(x), [p]);
  }

  /** Expiries alone never put a cursor on disk. */
  lemma {:induction false} NothingOnDisk(m: Mem, polls: seq<Poll>)
    requires NoneAccepted(polls) && DiskCursor(m.file) == ""
    ensures DiskCursor(After(m, polls).mem.file) == ""
  {
    if polls != [] {
      var front, p := polls[..|polls| - 1], polls[|polls| - 1];
      assert p in polls && forall q :: q in front ==> q in polls;
      NothingOnDisk(m, front);
    }
  }

  // ----- when a counter meets a cursor -----

  /** A positive counter together with a cursor, which the loop itself never produces. */
  predicate Clash(m: Mem) {
    m.count > 0 && m.buf != ""
  }

  /** What the loop tries to leave on disk when it takes this step, if anything: a cursor, or
      nothing at all when it stops. */
  function Attempted(m: Mem, p: Poll): seq<File> {
    if IsExpired(p.reply) && m.buf != "" then [Cursor("")]
    else if IsExpired(p.reply) && m.count + 1 >= EMPTY_BUF_THRESHOLD then [Missing]
    else if IsAccepted(p.reply) && p.reply.buf != "" && p.reply.buf != m.buf then [Cursor(p.reply.buf)]
    else []
  }

  /** The cursor that the last write which got through has left, starting from `file`. */
  function Surviving(m: Mem, polls: seq<Poll>): string {
    if polls == [] then DiskCursor(m.file) else
      var front, p := polls[..|polls| - 1], polls[|polls| - 1];
      var wanted := if After(m, front).Running? then Attempted(After(m, front).mem, p) else [];
      if wanted == [] || p.write.Kept? then Surviving(m, front)
      else if p.write.Written? then DiskCursor(wanted[0])
      else if wanted[0].Missing? then Surviving(m, front)
      else ""
  }

  lemma {:induction false} SurvivingIsDisk(m: Mem, polls: seq<Poll>)
    ensures DiskCursor(After(m, polls).mem.file) == Surviving(m, polls)
  {
    if polls != [] {
      SurvivingIsDisk(m, polls[..|polls| - 1]);
    }
  }

  /** A restart pairs a counter with a cursor exactly if the run before it ended in a series of
      expiries and the last write that got through had left a cursor, so that the reset of the
      cursor was lost. */
  lemma RestartClashIff(m: Mem, polls: seq<Poll>)
    requires !Clash(m)
    ensures var x := After(m, polls).mem;
            Clash(Load(x)) <==> x.count > 0 && Surviving(m, polls) != ""
  {
    CounterMeansEmpty(m, polls);
    SurvivingIsDisk(m, polls);
  }

  /** It happens: two expiries whose writes are lost. */
  lemma LostWriteRevivesCursor(stale: string)
    requires stale != ""
    ensures var expired := Response(0, SESSION_EXPIRED, "");
            var e := Sessions(Mem("", Cursor(stale), 0, 0, 0), [[Poll(expired, Kept), Poll(expired, Kept)], []]);
            e.count == 1 && e.buf == stale
  {
    var expired := Response(0, SESSION_EXPIRED, "");
    var p := Poll(expired, Kept);
    var m0 := Mem("", Cursor(stale), 0, 0, 0);
    var m1 := Load(m0);
    assert [p, p][..1] == [p] && [p][..0] == [];
    assert After(m1, [p]) == Running(m1.(buf := "", failures := 0));
    assert After(m1, [p, p]) == Running(m1.(buf := "", count := 1, failures := 1));
    var first: seq<seq<Poll>> := [[p, p]];
    assert first[..0] == [];
    assert Sessions(m0, first) == m1.(buf := "", count := 1, failures := 1);
    assert [[p, p], []][..1] == first;
  }

  // ----- the cursor, told from the script -----

  /** The cursor that the script leaves: that of the last accepted reply that brings one, unless
      the session has expired since. */
  function LastCursor(m: Mem, polls: seq<Poll>): string {
    if polls == [] then m.buf else
      var front, p := polls[..|polls| - 1], polls[|polls| - 1];
      if IsExpired(p.reply) then ""
      else if IsAccepted(p.reply) && p.reply.buf != "" then p.reply.buf
      else LastCursor(m, front)
  }

  /** The loop holds that cursor. */
  lemma {:induction false} CursorIs(m: Mem, polls: seq<Poll>)
    ensures After(m, polls).Running? ==> After(m, polls).mem.buf == LastCursor(m, polls)
  {
    if polls != [] {
      CursorIs(m, polls[..|polls| - 1]);
    }
  }
}
