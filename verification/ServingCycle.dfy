/** One worker iteration in its own code's shape: the flock retry loop, the serving cycle with its
    nested try / finally, the training block inside it, and the commit of the worker's session.

    Times are in milliseconds. What the outside world answers is the parameter `env`; how the restart
    goes is kept apart in `restart`, so that a contract that does not mention it cannot depend on it. */
module GpuLock {

  const SLEEP := 100

  datatype Outcome = Acquired | TimeoutError | UnboundLocalError

  // `busy(k)`: attempt k finds the lock held; `clock(k)`: the monotonic clock after attempt k.
  method Acquire(busy: nat -> bool, clock: nat -> int, start: int, timeout: nat, metricOn: bool)
      returns (r: Outcome, attempts: nat)
    requires clock(0) >= start && forall k: nat :: clock(k + 1) >= clock(k) + SLEEP
    ensures attempts >= 1
    ensures forall k :: 0 <= k < attempts - 1 ==> busy(k) && clock(k) < start + timeout
    ensures r == Acquired <==> !busy(attempts - 1)
    ensures r != Acquired ==> clock(attempts - 1) >= start + timeout
    // A timeout surfaces as the documented TimeoutError only while the wait metric is off: with it
    // on, the cleanup reads the acquisition time that was never set.
    ensures r == TimeoutError <==> busy(attempts - 1) && !metricOn
    ensures (attempts - 1) * SLEEP < timeout + SLEEP
  {
    var deadline := start + timeout;
    attempts := 1;
    while busy(attempts - 1)
      invariant attempts >= 1
      invariant forall k :: 0 <= k < attempts - 1 ==> busy(k) && clock(k) < deadline
      invariant clock(attempts - 1) >= start + (attempts - 1) * SLEEP
      invariant attempts > 1 ==> (attempts - 2) * SLEEP < timeout
      decreases deadline - clock(attempts - 1)
    {
      if clock(attempts - 1) >= deadline {
        r := if metricOn then UnboundLocalError else TimeoutError;
        return;
      }
      assert clock(attempts) >= clock(attempts - 1) + SLEEP;
      attempts := attempts + 1;
    }
    r := Acquired;
  }
}

module ServingCycle {
  import opened Wrappers
  import opened TrainingRuns

  datatype Event = Stop | Read | Train | Start | Health

  datatype StopAnswer = StopOk | StopRaises | StopSigterm

  datatype Reading = Mb(free: int) | ReadRaises | ReadSigterm

  // `current`: the committed row as the claim finds it, which may have moved on since it was selected.
  datatype ClaimAnswer = Answered(current: Row, at: int) | ClaimRaises | ClaimSigterm

  datatype TrainAnswer = Trained | TrainRaises | TrainSigterm

  // TimedOut: an OS-level TimeoutError out of storing the artifact.
  datatype RegisterAnswer = RegisterOk | TimedOut | RegisterRaises | RegisterSigterm

  // `clock(k)` is the monotonic clock at the deadline test after reading k, `ended` the time when training
  // ended; `progressed` says whether the runner committed progress while training. From then on the row is
  // there for others to change: `copy` is the run as the worker's session loads it again after that commit,
  // `found` the row as it is when the outcome is written or the session rolled back.
  datatype Env = Env(stop: StopAnswer, reading: nat -> Reading, clock: nat -> int, claim: ClaimAnswer,
                     train: TrainAnswer, progressed: bool, copy: Run, found: Row,
                     register: RegisterAnswer, ended: int)

  datatype Restart = Restart(startRaises: bool, healthy: bool, healthRaises: bool)

  datatype Outcome = Returned | Raised

  datatype Warning = VramReadFailed | RestartFailed | HealthCheckFailed | PreflightFailed

  datatype Settings = Settings(threshold: int, timeout: nat, poll: nat, maxRetries: nat)

  datatype Version = NoVersion | Unfinalized | Finalized

  // A training run and the model version registered from it.
  datatype Row = Row(run: Run, version: Version)

  function Ended(run: Run, outcome: Status, at: int): Run { run.(status := outcome, finishedAt := Some(at)) }

  // How the serving cycle was left.
  datatype Exit = Normal | StopFailed | VramNotFree | LostClaim | Interrupted | Error | TimeoutLeak

  datatype Poll = Freed | Deadline | Signalled

  // A failed reading counts as no free memory.
  function FreeMb(r: Reading): int { if r.Mb? then r.free else 0 }

  predicate Low(cfg: Settings, env: Env, k: nat) {
    !env.reading(k).ReadSigterm? && FreeMb(env.reading(k)) < cfg.threshold
  }

  // The poll loop made n readings and ended with v: all but the last were low and before the deadline.
  ghost predicate PollsTo(cfg: Settings, env: Env, start: int, n: nat, v: Poll) {
    && n >= 1
    && (forall k :: 0 <= k < n - 1 ==> Low(cfg, env, k) && env.clock(k) < start + cfg.timeout)
    && (match v
        case Freed => !env.reading(n - 1).ReadSigterm? && FreeMb(env.reading(n - 1)) >= cfg.threshold
        case Signalled => env.reading(n - 1).ReadSigterm?
        case Deadline => Low(cfg, env, n - 1) && env.clock(n - 1) >= start + cfg.timeout)
  }

  // In terms of the readings: each but the last was below the threshold, as a failed one is below any
  // positive threshold, and the last one says how the poll ended.
  lemma PollMeans(cfg: Settings, env: Env, start: int, n: nat, v: Poll)
    requires PollsTo(cfg, env, start, n, v)
    ensures forall k :: 0 <= k < n - 1 ==> Short(cfg, env.reading(k))
    ensures v == Signalled <==> env.reading(n - 1) == ReadSigterm
    ensures v == Freed <==> env.reading(n - 1) != ReadSigterm && !Short(cfg, env.reading(n - 1))
  {
    forall k | 0 <= k < n - 1 ensures Short(cfg, env.reading(k)) {
      assert Low(cfg, env, k) && env.clock(k) < start + cfg.timeout;
      assert Short(cfg, env.reading(k)) <==> Low(cfg, env, k);
    }
  }

  predicate Short(cfg: Settings, r: Reading) {
    match r
    case Mb(free) => free < cfg.threshold
    case ReadRaises => 0 < cfg.threshold
    case ReadSigterm => false
  }

  lemma PollUnique(cfg: Settings, env: Env, start: int, m: nat, v: Poll, n: nat, w: Poll)
    requires PollsTo(cfg, env, start, m, v) && PollsTo(cfg, env, start, n, w)
    ensures m == n && v == w
  {
    var lowAtM, lowAtN := Low(cfg, env, m - 1), Low(cfg, env, n - 1);
  }

  // The reader that replays the value reported by the last stop: if it is too low, polling is in vain.
  lemma FixedReadingNeverRecovers(cfg: Settings, env: Env, start: int, n: nat, v: Poll)
    requires PollsTo(cfg, env, start, n, v)
    requires forall k: nat :: env.reading(k) == env.reading(0) && env.reading(0) != ReadSigterm
    ensures v == (if FreeMb(env.reading(0)) >= cfg.threshold then Freed else Deadline)
    ensures v == Freed ==> n == 1
  {
    assert env.reading(n - 1) == env.reading(0);
    assert n > 1 ==> Low(cfg, env, 0);
  }

  // The claim was made and answered.
  predicate Asked(env: Env, v: Poll) { env.stop == StopOk && v == Freed && env.claim.Answered? }

  // The training block was entered.
  predicate Trains(cfg: Settings, row: Row, env: Env, v: Poll) {
    Asked(env, v) && ClaimWins(env.claim.current.run, row.run, cfg.maxRetries)
  }

  // How the cycle is left, once stop and poll have answered. `row` is the run as selected.
  function ExitOf(cfg: Settings, row: Row, env: Env, v: Poll): Exit {
    if env.stop == StopRaises then StopFailed
    else if env.stop == StopSigterm then Interrupted
    else if v == Deadline then VramNotFree
    else if v == Signalled then Interrupted
    else match env.claim
      case ClaimRaises => Error
      case ClaimSigterm => Interrupted
      case Answered(current, _) =>
        if !ClaimWins(current.run, row.run, cfg.maxRetries) then LostClaim
        else if env.train == TrainSigterm then Interrupted
        else if !MayEnd(env) then Error
        else if env.train == TrainRaises then Normal
        else match env.register
          case RegisterOk => Normal
          case TimedOut => TimeoutLeak
          case RegisterRaises => Error
          case RegisterSigterm => Interrupted
  }

  // The session's copy of the run still shows RUNNING, as its ending demands.
  predicate MayEnd(env: Env) { env.progressed ==> env.copy.status == RUNNING }

  // The row under the outcome.
  function During(env: Env, claimed: Row): Row { if env.progressed then env.found else claimed }

  // What `process_next_job` hands to the loop: a value (the loop then commits) or an exception.
  datatype Result = Job | NoJob | Sigterm | Crash

  function ResultOf(x: Exit): Result {
    match x
    case Normal => Job
    case StopFailed => NoJob
    case VramNotFree => NoJob
    case LostClaim => NoJob
    case TimeoutLeak => NoJob
    case Interrupted => Sigterm
    case Error => Crash
  }

  // The row after the iteration's commit or rollback.
  function RowAfter(cfg: Settings, row: Row, env: Env, v: Poll): Row {
    if !Asked(env, v) then row
    else
      var current := env.claim.current;
      var claimed := current.(run := ClaimedRow(current.run, row.run, cfg.maxRetries, env.claim.at));
      if !Trains(cfg, row, env, v) then claimed
      else
        var during := During(env, claimed);
        match ExitOf(cfg, row, env, v)
        case Normal =>
          if env.train == Trained then Row(Ended(during.run, COMPLETED, env.ended), Finalized)
          else Row(Ended(during.run, FAILED, env.ended), during.version)
        case TimeoutLeak => Row(Ended(during.run, COMPLETED, env.ended), Unfinalized)
        case _ => During(env, current)
  }

  function Reads(n: nat): seq<Event> { seq(n, _ => Read) }

  // The calls one cycle makes.
  function CallsOf(cfg: Settings, row: Row, env: Env, n: nat, v: Poll): seq<Event> {
    [Stop] + (if env.stop == StopOk then Reads(n) else []) + (if Trains(cfg, row, env, v) then [Train] else [])
      + [Start, Health]
  }

  // One warning for all failed readings of a cycle.
  function ReadWarning(env: Env, n: nat): seq<Warning> {
    if exists k: nat :: k < n && env.reading(k).ReadRaises? then [VramReadFailed] else []
  }

  // The two steps of the restart can only warn.
  function RestartWarnings(restart: Restart): seq<Warning> {
    (if restart.startRaises then [RestartFailed] else [])
    + (if restart.healthRaises || !restart.healthy then [HealthCheckFailed] else [])
  }

  function CycleWarnings(env: Env, n: nat, restart: Restart): seq<Warning> {
    (if env.stop == StopOk then ReadWarning(env, n) else []) + RestartWarnings(restart)
  }

  class TrainingWorker {
    const cfg: Settings
    var events: seq<Event>
    var session: Row     // what the worker's open transaction sees
    var committed: Row
    var warnings: seq<Warning>

    constructor (cfg: Settings, row: Row)
      ensures this.cfg == cfg && events == [] && warnings == [] && session == committed == row
    {
      this.cfg := cfg;
      events := [];
      warnings := [];
      session := row;
      committed := row;
    }

    method PollVram(env: Env, start: int) returns (n: nat, v: Poll)
      requires cfg.poll > 0 && env.clock(0) >= start
      requires forall k: nat :: env.clock(k + 1) >= env.clock(k) + cfg.poll
      modifies this`events, this`warnings
      ensures PollsTo(cfg, env, start, n, v)
      ensures (n - 1) * cfg.poll < cfg.timeout + cfg.poll
      ensures events == old(events) + Reads(n)
      ensures warnings == old(warnings) + ReadWarning(env, n)
    {
      var deadline := start + cfg.timeout;
      var readFailureLogged := false;
      n := 0;
      while true
        invariant forall k :: 0 <= k < n ==> Low(cfg, env, k) && env.clock(k) < deadline
        invariant env.clock(n) >= start + n * cfg.poll
        invariant n > 0 ==> (n - 1) * cfg.poll < cfg.timeout
        invariant events == old(events) + Reads(n)
        invariant warnings == old(warnings) + ReadWarning(env, n)
        invariant readFailureLogged <==> exists k: nat :: k < n && env.reading(k).ReadRaises?
        decreases deadline - env.clock(n)
      {
        events := events + [Read];
        assert Reads(n) + [Read] == Reads(n + 1);
        var r := env.reading(n);
        if r.ReadRaises? && !readFailureLogged {
          readFailureLogged := true;
          warnings := warnings + [VramReadFailed];
        }
        n := n + 1;
        if r.ReadSigterm? { return n, Signalled; }
        var free := if r.Mb? then r.free else 0;
        if free >= cfg.threshold { return n, Freed; }
        if env.clock(n - 1) >= deadline { return n, Deadline; }
        TimesPoll(n, cfg.poll);
        assert env.clock(n) >= env.clock(n - 1) + cfg.poll;
      }
    }

    // `claim_training_run` on the selected run: what it writes is pending until the session commits.
    method Claim(env: Env) returns (won: bool)
      requires env.claim.Answered? && session == committed
      modifies this`session, this`committed
      ensures won == ClaimWins(env.claim.current.run, old(session).run, cfg.maxRetries)
      ensures committed == env.claim.current
      ensures session == committed.(run := ClaimedRow(committed.run, old(session).run, cfg.maxRetries, env.claim.at))
    {
      var snap, now := session.run, env.claim.at;
      committed := env.claim.current;
      session := committed;
      if snap.status == STALE {
        if snap.retryCount + 1 > cfg.maxRetries {
          session := session.(run := Ended(session.run, FAILED, now));
          return false;
        }
        session := session.(run := session.run.(retryCount := snap.retryCount + 1));
      }
      won := Claimable(committed.run.status);
      if won {
        session := session.(run := session.run.(status := RUNNING, startedAt := Some(now), heartbeatAt := Some(now)));
      }
    }

    // The block inside the cycle: claim, run, then complete-and-register or fail.
    method TrainingBlock(env: Env) returns (x: Exit)
      requires env.stop == StopOk && session == committed
      modifies this`session, this`committed, this`events
      ensures x == ExitOf(cfg, old(committed), env, Freed)
      ensures events == old(events) + if Trains(cfg, old(committed), env, Freed) then [Train] else []
      ensures ResultOf(x) in {Job, NoJob} ==> session == RowAfter(cfg, old(committed), env, Freed)
      ensures ResultOf(x) !in {Job, NoJob} ==> committed == RowAfter(cfg, old(committed), env, Freed)
      ensures Trains(cfg, old(committed), env, Freed) && MayEnd(env) && env.train == TrainRaises ==>
                x == Normal && session.run.status == FAILED && session.run.finishedAt == Some(env.ended)
    {
      match env.claim {
        case ClaimRaises => return Error;
        case ClaimSigterm => return Interrupted;
        case Answered(_, _) =>
      }
      var won := Claim(env);
      if !won { return LostClaim; }
      events := events + [Train];
      var copy := session.run;
      if env.progressed {
        committed, session := env.found, env.found;
        copy := env.copy;
      }
      if env.train == TrainSigterm { return Interrupted; }
      // `fail_training_run` and `complete_training_run` raise unless the transition is a valid one.
      if !ValidTransition(copy.status, if env.train == TrainRaises then FAILED else COMPLETED) { return Error; }
      if env.train == TrainRaises {
        session := session.(run := Ended(session.run, FAILED, env.ended));
        return Normal;
      }
      session := session.(run := Ended(session.run, COMPLETED, env.ended));
      session := session.(version := Unfinalized);
      match env.register {
        case RegisterRaises => return Error;
        case RegisterSigterm => return Interrupted;
        case TimedOut => return TimeoutLeak;
        case RegisterOk => session := session.(version := Finalized);
      }
      return Normal;
    }

    method StartServing(restart: Restart) returns (o: Outcome)
      modifies this`events
      ensures events == old(events) + [Start]
      ensures o == Raised <==> restart.startRaises
    {
      events := events + [Start];
      o := if restart.startRaises then Raised else Returned;
    }

    method HealthCheck(restart: Restart) returns (o: Outcome, healthy: bool)
      modifies this`events
      ensures events == old(events) + [Health]
      ensures o == Raised <==> restart.healthRaises
      ensures o == Returned ==> healthy == restart.healthy
    {
      events := events + [Health];
      o, healthy := if restart.healthRaises then Raised else Returned, restart.healthy;
    }

    // The `try` part of `serving_cycle`: stop, poll, and the training block in place of its `yield`.
    method StopPollTrain(env: Env, start: int) returns (x: Exit, n: nat, v: Poll)
      requires cfg.poll > 0 && env.clock(0) >= start && session == committed
      requires forall k: nat :: env.clock(k + 1) >= env.clock(k) + cfg.poll
      modifies this
      ensures env.stop == StopOk ==> PollsTo(cfg, env, start, n, v) && (n - 1) * cfg.poll < cfg.timeout + cfg.poll
      ensures x == ExitOf(cfg, old(committed), env, v)
      ensures events + [Start, Health] == old(events) + CallsOf(cfg, old(committed), env, n, v)
      ensures warnings == old(warnings) + if env.stop == StopOk then ReadWarning(env, n) else []
      ensures ResultOf(x) in {Job, NoJob} ==> session == RowAfter(cfg, old(committed), env, v)
      ensures ResultOf(x) !in {Job, NoJob} ==> committed == RowAfter(cfg, old(committed), env, v)
    {
      n, v := 0, Deadline;
      events := events + [Stop];
      match env.stop {
        case StopRaises => return StopFailed, n, v;
        case StopSigterm => return Interrupted, n, v;
        case StopOk =>
      }
      n, v := PollVram(env, start);
      match v {
        case Deadline => x := VramNotFree;
        case Signalled => x := Interrupted;
        case Freed => x := TrainingBlock(env);
      }
    }

    // `serving_cycle` around the training block. In its `finally` neither step of the restart is skipped
    // because of the other, and how they end shows in the warnings alone.
    method Cycle(env: Env, start: int, restart: Restart) returns (x: Exit, n: nat, v: Poll)
      requires cfg.poll > 0 && env.clock(0) >= start && session == committed
      requires forall k: nat :: env.clock(k + 1) >= env.clock(k) + cfg.poll
      modifies this
      ensures env.stop == StopOk ==> PollsTo(cfg, env, start, n, v) && (n - 1) * cfg.poll < cfg.timeout + cfg.poll
      ensures x == ExitOf(cfg, old(committed), env, v)
      ensures events == old(events) + CallsOf(cfg, old(committed), env, n, v)
      ensures warnings == old(warnings) + CycleWarnings(env, n, restart)
      ensures ResultOf(x) in {Job, NoJob} ==> session == RowAfter(cfg, old(committed), env, v)
      ensures ResultOf(x) !in {Job, NoJob} ==> committed == RowAfter(cfg, old(committed), env, v)
    {
      x, n, v := StopPollTrain(env, start);
      var started := StartServing(restart);
      if started == Raised { warnings := warnings + [RestartFailed]; }
      var checked, healthy := HealthCheck(restart);
      if checked == Raised || !healthy { warnings := warnings + [HealthCheckFailed]; }
    }

    // One turn of `run_forever`: the loop commits unless an exception came out; SIGTERM and any
    // other exception close the session, which rolls it back.
    method RunOnce(env: Env, start: int, restart: Restart) returns (r: Result, n: nat, v: Poll)
      requires cfg.poll > 0 && env.clock(0) >= start && session == committed
      requires forall k: nat :: env.clock(k + 1) >= env.clock(k) + cfg.poll
      modifies this
      ensures env.stop == StopOk ==> PollsTo(cfg, env, start, n, v) && (n - 1) * cfg.poll < cfg.timeout + cfg.poll
      ensures r == ResultOf(ExitOf(cfg, old(committed), env, v))
      ensures events == old(events) + CallsOf(cfg, old(committed), env, n, v)
      ensures warnings == old(warnings) + CycleWarnings(env, n, restart)
                          + (if ExitOf(cfg, old(committed), env, v) in {StopFailed, VramNotFree} then [PreflightFailed]
                            else [])
      ensures session == committed == RowAfter(cfg, old(committed), env, v)
      // Training that ends is committed with its ending, whichever it is, and never leaves a run to claim again.
      ensures Trains(cfg, old(committed), env, v) && MayEnd(env) && env.train == TrainRaises ==>
                r == Job && committed.run.status == FAILED && committed.run.finishedAt == Some(env.ended)
      ensures Trains(cfg, old(committed), env, v) && r in {Job, NoJob} ==> Terminal(committed.run.status)
    {
      var x;
      x, n, v := Cycle(env, start, restart);
      if x == StopFailed || x == VramNotFree { warnings := warnings + [PreflightFailed]; }
      r := ResultOf(x);
      if r == Job || r == NoJob {
        committed := session;
      } else {
        session := committed;
      }
    }
  }

  lemma TimesPoll(n: nat, poll: nat)
    requires n > 0
    ensures n * poll == (n - 1) * poll + poll
  {
  }

  // ----- What the contracts add up to -----

  function Count(es: seq<Event>, e: Event): nat {
    if es == [] then 0 else (if es[0] == e then 1 else 0) + Count(es[1..], e)
  }

  lemma {:induction false} CountConcat(a: seq<Event>, b: seq<Event>, e: Event)
    ensures Count(a + b, e) == Count(a, e) + Count(b, e)
  {
    if a == [] {
      assert a + b == b;
    } else {
      assert (a + b)[1..] == a[1..] + b;
      CountConcat(a[1..], b, e);
    }
  }

  lemma {:induction false} CountReads(n: nat, e: Event)
    ensures Count(Reads(n), e) == if e == Read then n else 0
  {
    if n > 0 {
      assert Reads(n)[1..] == Reads(n - 1);
      CountReads(n - 1, e);
    }
  }

  lemma CountOne(x: Event, e: Event)
    ensures Count([x], e) == if x == e then 1 else 0
  {
    assert [x][1..] == [];
  }

  lemma CallsCount(cfg: Settings, row: Row, env: Env, n: nat, v: Poll, e: Event)
    ensures Count(CallsOf(cfg, row, env, n, v), e) == match e
                                                      case Read => if env.stop == StopOk then n else 0
                                                      case Train => if Trains(cfg, row, env, v) then 1 else 0
                                                      case _ => 1
  {
    var polls := if env.stop == StopOk then Reads(n) else [];
    var train := if Trains(cfg, row, env, v) then [Train] else [];
    CountConcat([Stop] + polls + train, [Start, Health], e);
    CountConcat([Stop] + polls, train, e);
    CountConcat([Stop], polls, e);
    assert [Start, Health] == [Start] + [Health];
    CountConcat([Start], [Health], e);
    CountReads(n, e);
    CountOne(Stop, e);
    CountOne(Start, e);
    CountOne(Health, e);
    CountOne(Train, e);
  }

  // Whatever goes wrong, one cycle stops once, starts once and checks health once, in that order and
  // with the start and the check last; it trains at most once and reads only between.
  lemma OneRestartPerCycle(cfg: Settings, row: Row, env: Env, n: nat, v: Poll)
    ensures var calls := CallsOf(cfg, row, env, n, v);
            && Count(calls, Stop) == 1 && Count(calls, Start) == 1 && Count(calls, Health) == 1
            && calls[0] == Stop && calls[|calls| - 2..] == [Start, Health]
            && Count(calls, Train) == (if Trains(cfg, row, env, v) then 1 else 0)
            && Count(calls, Read) == (if env.stop == StopOk then n else 0)
            && (env.stop == StopOk ==> forall k :: 1 <= k <= n ==> calls[k] == Read)
            && (Trains(cfg, row, env, v) ==> calls[|calls| - 3] == Train)
  {
    CallsCount(cfg, row, env, n, v, Stop);
    CallsCount(cfg, row, env, n, v, Start);
    CallsCount(cfg, row, env, n, v, Health);
    CallsCount(cfg, row, env, n, v, Train);
    CallsCount(cfg, row, env, n, v, Read);
  }

  // Nobody else writes into the row: the claim finds it as it was selected, the session loads it again as it
  // committed it, and so it is in the end.
  predicate Untouched(cfg: Settings, row: Row, env: Env) {
    env.claim.Answered? ==>
      && env.claim.current == row
      && (env.progressed ==>
            && env.copy == ClaimedRow(row.run, row.run, cfg.maxRetries, env.claim.at)
            && env.found == row.(run := env.copy))
  }

  // A queued run, PENDING or STALE, that nobody else touched is left exactly as it was if and only if no
  // claim was answered - a preflight failure, a signal or an error before it - or its training was rolled
  // back before any progress had been committed. It changes without being trained exactly when the claim
  // finds its retries used up, and then it is FAILED.
  lemma RowKeptExactly(cfg: Settings, row: Row, env: Env, v: Poll)
    requires Claimable(row.run.status) && Untouched(cfg, row, env)
    ensures RowAfter(cfg, row, env, v) == row
            <==> || !Asked(env, v)
                 || (Trains(cfg, row, env, v) && !env.progressed && ExitOf(cfg, row, env, v) in {Interrupted, Error})
    ensures RowAfter(cfg, row, env, v) != row && !Trains(cfg, row, env, v)
            <==> Asked(env, v) && OverBudget(row.run, cfg.maxRetries)
    ensures Asked(env, v) && OverBudget(row.run, cfg.maxRetries) ==>
              RowAfter(cfg, row, env, v).run.status == FAILED && ExitOf(cfg, row, env, v) == LostClaim
  {
  }

  // A claim beaten by another worker leaves that worker's row alone exactly when the run had been selected
  // PENDING, or STALE within its retries and the row counts the same retry already, or STALE beyond them
  // and the row shows that very failure. The rest of the time it writes into a row it does not own.
  lemma BeatenRowExactly(cfg: Settings, row: Row, env: Env, v: Poll)
    requires Asked(env, v) && Claimable(row.run.status) && !Claimable(env.claim.current.run.status)
    ensures ExitOf(cfg, row, env, v) == LostClaim
    ensures RowAfter(cfg, row, env, v) == env.claim.current
            <==> || row.run.status == PENDING
                 || (!OverBudget(row.run, cfg.maxRetries) && env.claim.current.run.retryCount == row.run.retryCount + 1)
                 || (OverBudget(row.run, cfg.maxRetries)
                      && env.claim.current.run == Ended(env.claim.current.run, FAILED, env.claim.at))
    ensures OverBudget(row.run, cfg.maxRetries) ==> RowAfter(cfg, row, env, v).run.status == FAILED
  {
    var after, current := RowAfter(cfg, row, env, v), env.claim.current;
    assert OverBudget(row.run, cfg.maxRetries) ==> after == current.(run := Ended(current.run, FAILED, env.claim.at));
    assert row.run.status == STALE && !OverBudget(row.run, cfg.maxRetries) ==>
             after == current.(run := current.run.(retryCount := row.run.retryCount + 1));
    assert current.run.retryCount == row.run.retryCount + 1 ==>
             current.run.(retryCount := row.run.retryCount + 1) == current.run;
  }

  predicate Registered(row: Row) { row.run.status == COMPLETED <==> row.version != NoVersion }

  // The outcome overwrites a run that somebody else has completed since.
  predicate FailsCompleted(cfg: Settings, row: Row, env: Env, v: Poll) {
    || (Asked(env, v) && OverBudget(row.run, cfg.maxRetries) && env.claim.current.run.status == COMPLETED)
    || (Trains(cfg, row, env, v) && env.progressed && env.train == TrainRaises && MayEnd(env)
         && env.found.run.status == COMPLETED)
  }

  // The committed row goes on showing COMPLETED exactly together with a registered version, except that
  // a claim over its retries, or the failure of a worker whose copy is old, writes FAILED over a run that has
  // completed since. The version's artifact is in place unless storing it timed out: that error passes for a
  // lock timeout and is committed.
  lemma CompletedMeansRegistered(cfg: Settings, row: Row, env: Env, v: Poll)
    requires Registered(row) && (env.claim.Answered? ==> Registered(env.claim.current)) && Registered(env.found)
    ensures Registered(RowAfter(cfg, row, env, v)) <==> !FailsCompleted(cfg, row, env, v)
    ensures Trains(cfg, row, env, v) && MayEnd(env) && (env.progressed ==> env.found.version == NoVersion) ==>
              var after := RowAfter(cfg, row, env, v);
              && (after.run.status == COMPLETED <==> env.train == Trained && env.register in {RegisterOk, TimedOut})
              && (after.version == Unfinalized <==> env.train == Trained && env.register == TimedOut)
  {
  }

  // How training that was let end shows in the row, field by field: the ending and its time, the version,
  // and what the claim or the others have left of the rest.
  lemma EndingExactly(cfg: Settings, row: Row, env: Env, v: Poll)
    requires Trains(cfg, row, env, v) && MayEnd(env) && env.train != TrainSigterm
    ensures var after, current := RowAfter(cfg, row, env, v), env.claim.current;
            var ends := env.train == TrainRaises || env.register in {RegisterOk, TimedOut};
            && (!ends ==> after == if env.progressed then env.found else current)
            && (ends ==>
                  && after.run.status == (if env.train == TrainRaises then FAILED else COMPLETED)
                  && after.run.finishedAt == Some(env.ended)
                  && (env.progressed ==>
                        after.run == env.found.run.(status := after.run.status, finishedAt := after.run.finishedAt))
                  && (!env.progressed ==>
                        && after.run.startedAt == after.run.heartbeatAt == Some(env.claim.at)
                        && after.run.rank == current.run.rank && after.run.createdAt == current.run.createdAt
                        && after.run.retryCount
                           == if row.run.status == STALE then row.run.retryCount + 1 else current.run.retryCount))
            && (env.train == TrainRaises ==>
                  after.version == if env.progressed then env.found.version else current.version)
            && (env.train == Trained && env.register == RegisterOk ==> after.version == Finalized)
            && (env.train == Trained && env.register == TimedOut ==> after.version == Unfinalized)
  {
  }

  // Which turns hand out a job, stop the loop or crash it. The rest find no job.
  lemma ResultExactly(cfg: Settings, row: Row, env: Env, v: Poll)
    ensures var r := ResultOf(ExitOf(cfg, row, env, v));
            var trains := Trains(cfg, row, env, v);
            && (r == Job <==>
                  && trains && MayEnd(env)
                  && (env.train == TrainRaises || (env.train == Trained && env.register == RegisterOk)))
            && (r == Sigterm <==>
                  || env.stop == StopSigterm
                  || (env.stop == StopOk && v == Signalled)
                  || (env.stop == StopOk && v == Freed && env.claim == ClaimSigterm)
                  || (trains && env.train == TrainSigterm)
                  || (trains && MayEnd(env) && env.train == Trained && env.register == RegisterSigterm))
            && (r == Crash <==>
                  || (env.stop == StopOk && v == Freed && env.claim == ClaimRaises)
                  || (trains && env.train != TrainSigterm && !MayEnd(env))
                  || (trains && MayEnd(env) && env.train == Trained && env.register == RegisterRaises))
  {
  }

  // What a cycle warns of: failed readings once, and how start and health check end. A restart that fails
  // is told apart from an unhealthy one.
  lemma WarningsExactly(env: Env, n: nat, restart: Restart)
    ensures var ws := CycleWarnings(env, n, restart);
            && (VramReadFailed in ws <==> env.stop == StopOk && exists k: nat :: k < n && env.reading(k) == ReadRaises)
            && (RestartFailed in ws <==> restart.startRaises)
            && (HealthCheckFailed in ws <==> restart.healthRaises || !restart.healthy)
            && PreflightFailed !in ws
            && (forall i, j :: 0 <= i < j < |ws| ==> ws[i] != ws[j])
  {
    assert forall k: nat :: env.reading(k).ReadRaises? <==> env.reading(k) == ReadRaises;
  }

  // A claim that is refused leaves the row as it is, but for the failure of a run out of retries and the
  // counter of a STALE copy.
  lemma RefusedRowExactly(cfg: Settings, row: Row, env: Env, v: Poll)
    requires Asked(env, v) && !Trains(cfg, row, env, v)
    ensures var after, current := RowAfter(cfg, row, env, v), env.claim.current;
            if row.run.status == STALE && row.run.retryCount >= cfg.maxRetries then
              after == Row(current.run.(status := FAILED, finishedAt := Some(env.claim.at)), current.version)
            else if row.run.status == STALE then
              after == Row(current.run.(retryCount := row.run.retryCount + 1), current.version)
            else after == current
  {
  }

  // A run that the detector marks STALE while it trains is never ended by its worker once the worker's
  // session has loaded that: whatever training answers, the turn crashes or is interrupted, and the row stays
  // as the others left it.
  lemma MarkedRunIsLeft(cfg: Settings, row: Row, env: Env, v: Poll)
    requires Trains(cfg, row, env, v) && env.progressed && env.copy.status == STALE
    ensures ResultOf(ExitOf(cfg, row, env, v)) == (if env.train == TrainSigterm then Sigterm else Crash)
    ensures RowAfter(cfg, row, env, v) == env.found
  {
  }
}
