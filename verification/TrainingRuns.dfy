/** Training runs: the status table, the compare-and-set claim, heartbeats and the stale detector.

    `TrainingService` is the service over one table of committed rows. A worker acts on the copy of a
    row it loaded earlier (`snap`); the row itself may have moved on since. */
module TrainingRuns {
  import opened Wrappers

  datatype Status = PENDING | RUNNING | STALE | COMPLETED | FAILED

  datatype Run = Run(status: Status, retryCount: nat, rank: nat, createdAt: int,
                     startedAt: Option<int>, heartbeatAt: Option<int>, finishedAt: Option<int>)

  type Table = map<string, Run>

  predicate Claimable(s: Status) { s == PENDING || s == STALE }

  predicate Terminal(s: Status) { s == COMPLETED || s == FAILED }

  predicate ValidTransition(a: Status, b: Status) {
    match a
    case PENDING => b == RUNNING
    case RUNNING => b == COMPLETED || b == FAILED || b == STALE
    case STALE => b == RUNNING
    case COMPLETED => false
    case FAILED => false
  }

  // The liveness lapse test of the detector: no heartbeat, or the last one before the cutoff.
  predicate Lapsed(r: Run, now: int, threshold: nat) {
    && r.status == RUNNING
    && (match r.heartbeatAt
        case None => true
        case Some(h) => h < now - threshold)
  }

  // A stale snapshot that has used up its retries.
  predicate OverBudget(snap: Run, max: nat) { snap.status == STALE && snap.retryCount + 1 > max }

  // The row after `claim_training_run` and the worker's commit. `snap` is what the worker loaded: the
  // over-budget branch and the retry counter are taken from it and written whatever the row now says.
  function ClaimedRow(row: Run, snap: Run, max: nat, now: int): Run {
    if OverBudget(snap, max) then row.(status := FAILED, finishedAt := Some(now))
    else
      var counted := if snap.status == STALE then row.(retryCount := snap.retryCount + 1) else row;
      if Claimable(row.status) then counted.(status := RUNNING, startedAt := Some(now), heartbeatAt := Some(now))
      else counted
  }

  predicate ClaimWins(row: Run, snap: Run, max: nat) { !OverBudget(snap, max) && Claimable(row.status) }

  // The queue order: highest priority first, oldest first within a priority.
  predicate Before(a: Run, b: Run) { a.rank > b.rank || (a.rank == b.rank && a.createdAt <= b.createdAt) }

  ghost predicate IsNext(rows: Table, id: string) {
    && id in rows && Claimable(rows[id].status)
    && forall k :: k in rows && Claimable(rows[k].status) ==> Before(rows[id], rows[k])
  }

  // The run selected has the highest priority of all that wait, and of these it is the oldest.
  lemma NextExactly(rows: Table, id: string)
    ensures IsNext(rows, id) <==>
              && id in rows && rows[id].status in {PENDING, STALE}
              && forall k :: k in rows && rows[k].status in {PENDING, STALE} ==>
                   && rows[k].rank <= rows[id].rank
                   && (rows[k].rank == rows[id].rank ==> rows[id].createdAt <= rows[k].createdAt)
  {
    if IsNext(rows, id) {
      forall k | k in rows && rows[k].status in {PENDING, STALE}
        ensures rows[k].rank <= rows[id].rank
        ensures rows[k].rank == rows[id].rank ==> rows[id].createdAt <= rows[k].createdAt
      {
        assert Claimable(rows[k].status) && Before(rows[id], rows[k]);
      }
    }
  }

  function Marked(rows: Table, now: int, threshold: nat): Table {
    map id | id in rows :: if Lapsed(rows[id], now, threshold) then rows[id].(status := STALE) else rows[id]
  }

  class TrainingService {
    const maxStaleRetries: nat
    const staleThreshold: nat
    var rows: Table

    constructor (maxStaleRetries: nat, staleThreshold: nat)
      ensures this.maxStaleRetries == maxStaleRetries && this.staleThreshold == staleThreshold && rows == map[]
    {
      this.maxStaleRetries := maxStaleRetries;
      this.staleThreshold := staleThreshold;
      rows := map[];
    }

    // The first of the claimable runs by descending rank, then by creation time.
    method NextClaimableRun() returns (next: Option<string>)
      ensures next == None <==> forall k :: k in rows ==> rows[k].status !in {PENDING, STALE}
      ensures next.Some? ==> IsNext(rows, next.value)
    {
      next := None;
      var left := rows.Keys;
      while left != {}
        invariant left <= rows.Keys
        invariant next.Some? ==> next.value in rows && Claimable(rows[next.value].status)
        invariant next == None ==> forall k :: k in rows && k !in left ==> !Claimable(rows[k].status)
        invariant next.Some? ==> forall k :: k in rows && k !in left && Claimable(rows[k].status) ==>
                                   Before(rows[next.value], rows[k])
        decreases left
      {
        var k :| k in left;
        if Claimable(rows[k].status) && (next == None || !Before(rows[next.value], rows[k])) { next := Some(k); }
        left := left - {k};
      }
    }

    // `claim_training_run` followed by the commit of the worker's session.
    method ClaimTrainingRun(id: string, snap: Run, now: int) returns (won: bool)
      requires id in rows
      modifies this
      ensures won <==> ClaimWins(old(rows)[id], snap, maxStaleRetries)
      ensures rows == old(rows)[id := ClaimedRow(old(rows)[id], snap, maxStaleRetries, now)]
      ensures won <==> old(rows)[id].status in {PENDING, STALE}
                       && (snap.status == STALE ==> snap.retryCount + 1 <= maxStaleRetries)
      ensures won ==>
                rows[id] == old(rows)[id].(status := RUNNING, startedAt := Some(now), heartbeatAt := Some(now),
                                           retryCount := if snap.status == STALE then snap.retryCount + 1
                                                         else old(rows)[id].retryCount)
      ensures !won && snap.status == STALE && snap.retryCount + 1 > maxStaleRetries ==>
                rows[id] == old(rows)[id].(status := FAILED, finishedAt := Some(now))
      ensures !won && snap.status == STALE && snap.retryCount + 1 <= maxStaleRetries ==>
                rows[id] == old(rows)[id].(retryCount := snap.retryCount + 1)
      ensures !won && snap.status != STALE ==> rows == old(rows)
    {
      var wasStale := snap.status == STALE;
      var newCount := snap.retryCount + 1;
      if wasStale && newCount > maxStaleRetries {
        rows := rows[id := rows[id].(status := FAILED, finishedAt := Some(now))];
        return false;
      }
      won := Claimable(rows[id].status);
      if won {
        rows := rows[id := rows[id].(status := RUNNING, startedAt := Some(now), heartbeatAt := Some(now))];
      }
      if wasStale {
        rows := rows[id := rows[id].(retryCount := newCount)];
      }
    }

    method TouchHeartbeat(id: string, now: int) returns (count: nat)
      modifies this
      ensures rows.Keys == old(rows).Keys
      ensures forall k :: k in rows && k != id ==> rows[k] == old(rows)[k]
      ensures count <= 1 && (count == 1 <==> id in rows && rows[id].status == RUNNING)
      ensures count == 0 ==> rows == old(rows)
      ensures count == 1 ==> old(rows)[id] == rows[id].(heartbeatAt := old(rows)[id].heartbeatAt)
      ensures count == 1 ==> forall t :: Lapsed(rows[id], t, staleThreshold) <==> t > now + staleThreshold
    {
      if id in rows && rows[id].status == RUNNING {
        rows := rows[id := rows[id].(heartbeatAt := Some(now))];
        return 1;
      }
      return 0;
    }

    method MarkStaleRuns(now: int) returns (count: nat)
      modifies this
      ensures rows.Keys == old(rows).Keys
      ensures forall k :: k in rows ==> old(rows)[k] == rows[k].(status := old(rows)[k].status)
      ensures forall k :: k in rows ==> (rows[k] != old(rows)[k] <==>
                old(rows)[k].status == RUNNING
                && (old(rows)[k].heartbeatAt == None || now - old(rows)[k].heartbeatAt.value > staleThreshold))
      ensures forall k :: k in rows && rows[k] != old(rows)[k] ==> rows[k].status == STALE
      ensures forall k :: k in rows ==> !Lapsed(rows[k], now, staleThreshold)
      ensures count == |set k | k in rows && rows[k] != old(rows)[k]|
    {
      var lapsed := set id | id in rows && Lapsed(rows[id], now, staleThreshold);
      count := |lapsed|;
      rows := Marked(rows, now, staleThreshold);
      assert lapsed == set k | k in rows && rows[k] != old(rows)[k];
    }

    // `complete_training_run` / `fail_training_run`: the check is on the worker's copy, the write is
    // unconditional.
    method FinishTrainingRun(id: string, snap: Run, outcome: Status, now: int) returns (ok: bool)
      requires id in rows && Terminal(outcome)
      modifies this
      ensures ok <==> snap.status == RUNNING
      ensures rows == if ok then old(rows)[id := old(rows)[id].(status := outcome, finishedAt := Some(now))]
                else old(rows)
    {
      ok := ValidTransition(snap.status, outcome);
      if ok {
        rows := rows[id := rows[id].(status := outcome, finishedAt := Some(now))];
      }
    }

    // A retry is a new PENDING run; the failed one is not touched.
    method RetryTrainingRun(id: string, newId: string, now: int) returns (ok: bool)
      requires id in rows && newId !in rows
      modifies this
      ensures ok <==> old(rows)[id].status == FAILED
      ensures !ok ==> rows == old(rows)
      ensures ok ==> rows == old(rows)[newId := Run(PENDING, 0, 1, now, None, None, None)]
      ensures forall k :: k in old(rows) ==> k in rows && rows[k] == old(rows)[k]
    {
      ok := rows[id].status == FAILED;
      if ok {
        rows := rows[newId := Run(PENDING, 0, 1, now, None, None, None)];
      }
    }

    // Two claims on the same row, whatever the two workers had loaded: at most one wins.
    method ClaimTwice(id: string, a: Run, b: Run, t: int, u: int) returns (first: bool, second: bool)
      requires id in rows
      modifies this
      ensures !(first && second)
    {
      first := ClaimTrainingRun(id, a, t);
      second := ClaimTrainingRun(id, b, u);
    }
  }

}

/** Any number of workers with snapshots of any age, no lock assumed. */
module ClaimProtocol {
  import opened Wrappers
  import opened TrainingRuns

  datatype Event = Won(worker: nat, id: string) | Staled(id: string) | Ended(id: string, outcome: Status)

  // A run a worker won and has not finished, with the copy its session holds: none right after one of its
  // commits, which expire the copy, until the next use of it loads the row again.
  datatype Holding = Holding(id: string, copy: Option<Run>)

  // `loaded`: the row copy a worker selected and has not claimed with yet.
  datatype State = State(rows: Table, loaded: map<nat, (string, Run)>, holds: map<nat, Holding>, log: seq<Event>)

  datatype Label = Create(id: string, run: Run)
                 | Select(worker: nat, id: string)
                 | Claim(worker: nat, now: int)
                 | Heartbeat(worker: nat, now: int)
                 | Mark(id: string, now: int)
                 | Reload(worker: nat)
                 | Progress(worker: nat)
                 | Finish(worker: nat, outcome: Status, now: int)
                 | Crash(worker: nat)

  datatype Limits = Limits(max: nat, threshold: nat)

  const INIT := State(map[], map[], map[], [])

  ghost predicate Enabled(c: Limits, s: State, l: Label) {
    match l
    case Create(id, run) => id !in s.rows && run.status == PENDING
    case Select(w, id) => w !in s.holds && id in s.rows && Claimable(s.rows[id].status)
    case Claim(w, _) => w in s.loaded && w !in s.holds
    case Heartbeat(w, _) => w in s.holds
    case Mark(id, now) => id in s.rows && Lapsed(s.rows[id], now, c.threshold)
    case Reload(w) => w in s.holds && s.holds[w].copy == None
    case Progress(w) => w in s.holds && s.holds[w].copy.Some? && s.holds[w].copy.value.status == RUNNING
    case Finish(w, outcome, _) =>
      && w in s.holds && Terminal(outcome)
      && s.holds[w].copy.Some? && ValidTransition(s.holds[w].copy.value.status, outcome)
    case Crash(_) => true
  }

  ghost function Apply(c: Limits, s: State, l: Label): State
    requires Enabled(c, s, l)
  {
    match l
    case Create(id, run) => s.(rows := s.rows[id := run])
    case Select(w, id) => s.(loaded := s.loaded[w := (id, s.rows[id])])
    case Claim(w, now) =>
      var (id, snap) := s.loaded[w];
      var s' := s.(loaded := s.loaded - {w});
      if id !in s.rows then s'
      else if ClaimWins(s.rows[id], snap, c.max) then
        s'.(rows := s.rows[id := ClaimedRow(s.rows[id], snap, c.max, now)], holds := s.holds[w := Holding(id, None)],
            log := s.log + [Won(w, id)])
      else
        s'.(rows := s.rows[id := ClaimedRow(s.rows[id], snap, c.max, now)],
            log := if OverBudget(snap, c.max) then s.log + [Ended(id, FAILED)] else s.log)
    case Heartbeat(w, now) =>
      var id := s.holds[w].id;
      if id in s.rows && s.rows[id].status == RUNNING
        then s.(rows := s.rows[id := s.rows[id].(heartbeatAt := Some(now))])
      else s
    case Mark(id, now) => s.(rows := s.rows[id := s.rows[id].(status := STALE)], log := s.log + [Staled(id)])
    case Reload(w) =>
      var id := s.holds[w].id;
      if id in s.rows then s.(holds := s.holds[w := Holding(id, Some(s.rows[id]))]) else s
    case Progress(w) => s.(holds := s.holds[w := Holding(s.holds[w].id, None)])
    case Finish(w, outcome, now) =>
      var id := s.holds[w].id;
      var s' := s.(holds := s.holds - {w});
      if id !in s.rows then s'
      else s'.(rows := s.rows[id := s.rows[id].(status := outcome, finishedAt := Some(now))],
        log := s.log + [Ended(id, outcome)])
    case Crash(w) => s.(loaded := s.loaded - {w}, holds := s.holds - {w})
  }

  ghost predicate IsRun(c: Limits, states: seq<State>, labels: seq<Label>) {
    && |states| == |labels| + 1 && states[0] == INIT
    && forall i :: 0 <= i < |labels| ==>
         Enabled(c, states[i], labels[i]) && states[i + 1] == Apply(c, states[i], labels[i])
  }

  // The status a log assigns to a run.
  function StatusOf(log: seq<Event>, id: string): Status {
    if log == [] then PENDING
    else
      match log[|log| - 1]
      case Won(_, k) => if k == id then RUNNING else StatusOf(log[..|log| - 1], id)
      case Staled(k) => if k == id then STALE else StatusOf(log[..|log| - 1], id)
      case Ended(k, outcome) => if k == id then outcome else StatusOf(log[..|log| - 1], id)
  }

  // What may happen to a run, given its history so far.
  predicate Legal(log: seq<Event>, e: Event) {
    match e
    case Won(_, id) => Claimable(StatusOf(log, id))
    case Staled(id) => StatusOf(log, id) == RUNNING
    case Ended(id, outcome) => Terminal(outcome) && StatusOf(log, id) != PENDING
  }

  ghost predicate LegalLog(log: seq<Event>) { forall i :: 0 <= i < |log| ==> Legal(log[..i], log[i]) }

  ghost predicate Inv(s: State) {
    && LegalLog(s.log)
    && (forall id :: id in s.rows ==> s.rows[id].status == StatusOf(s.log, id))
    && (forall id :: id !in s.rows ==> StatusOf(s.log, id) == PENDING)
    && (forall w :: w in s.loaded ==> s.loaded[w].0 in s.rows)
    && (forall w :: w in s.loaded && s.loaded[w].1.status == STALE ==> s.rows[s.loaded[w].0].status != PENDING)
    && (forall w :: w in s.holds ==> s.holds[w].id in s.rows && s.rows[s.holds[w].id].status != PENDING)
  }

  lemma LogGrows(log: seq<Event>, e: Event)
    ensures forall id :: StatusOf(log + [e], id) ==
              match e
              case Won(_, k) => if k == id then RUNNING else StatusOf(log, id)
              case Staled(k) => if k == id then STALE else StatusOf(log, id)
              case Ended(k, outcome) => if k == id then outcome else StatusOf(log, id)
    ensures LegalLog(log) && Legal(log, e) ==> LegalLog(log + [e])
  {
    assert (log + [e])[..|log|] == log;
    if LegalLog(log) && Legal(log, e) {
      forall i | 0 <= i < |log + [e]| ensures Legal((log + [e])[..i], (log + [e])[i]) {
        if i < |log| { assert (log + [e])[..i] == log[..i]; }
      }
    }
  }

  lemma ClaimKeeps(c: Limits, s: State, l: Label)
    requires Inv(s) && Enabled(c, s, l) && l.Claim?
    ensures Inv(Apply(c, s, l))
  {
    var (id, snap) := s.loaded[l.worker];
    if OverBudget(snap, c.max) {
      LogGrows(s.log, Ended(id, FAILED));
    } else if Claimable(s.rows[id].status) {
      LogGrows(s.log, Won(l.worker, id));
    }
  }

  lemma EndKeeps(c: Limits, s: State, l: Label)
    requires Inv(s) && Enabled(c, s, l) && (l.Finish? || l.Mark?)
    ensures Inv(Apply(c, s, l))
  {
    LogGrows(s.log, if l.Mark? then Staled(l.id) else Ended(s.holds[l.worker].id, l.outcome));
  }

  lemma StepKeeps(c: Limits, s: State, l: Label)
    requires Inv(s) && Enabled(c, s, l)
    ensures Inv(Apply(c, s, l))
  {
    if l.Claim? {
      ClaimKeeps(c, s, l);
    } else if l.Finish? || l.Mark? {
      EndKeeps(c, s, l);
    }
  }

  lemma {:induction false} InvAlways(c: Limits, states: seq<State>, labels: seq<Label>, i: nat)
    requires IsRun(c, states, labels) && i < |states|
    ensures Inv(states[i])
  {
    if i > 0 {
      InvAlways(c, states, labels, i - 1);
      StepKeeps(c, states[i - 1], labels[i - 1]);
    }
  }

  // Whatever snapshots the workers hold: two wins of the same run are separated by a reclaim, so
  // every flip into RUNNING is won by exactly one worker.
  lemma OneWinnerPerFlip(c: Limits, states: seq<State>, labels: seq<Label>, i: nat, a: nat, b: nat)
    requires IsRun(c, states, labels) && i < |states|
    requires a < b < |states[i].log| && states[i].log[a].Won? && states[i].log[b].Won?
    requires states[i].log[a].id == states[i].log[b].id
    ensures exists k :: a < k < b && states[i].log[k] == Staled(states[i].log[a].id)
  {
    InvAlways(c, states, labels, i);
    var log := states[i].log;
    assert Legal(log[..b], log[b]);
    if forall k :: a < k < b ==> log[k] != Staled(log[a].id) {
      StaysUnclaimable(log, log[a].id, a, b);
    }
  }

  lemma {:induction false} StaysUnclaimable(log: seq<Event>, id: string, a: nat, b: nat)
    requires LegalLog(log) && a < b <= |log| && log[a].Won? && log[a].id == id
    requires forall k :: a < k < b ==> log[k] != Staled(id)
    ensures !Claimable(StatusOf(log[..b], id))
  {
    assert log[..b] == log[..b - 1] + [log[b - 1]];
    LogGrows(log[..b - 1], log[b - 1]);
    if a < b - 1 { StaysUnclaimable(log, id, a, b - 1); }
    assert Legal(log[..b - 1], log[b - 1]);
  }

  // A run that has ended never runs again, not even for a worker that loaded it before.
  lemma {:induction false} EndedNeverRunsAgain(c: Limits, states: seq<State>, labels: seq<Label>, i: nat, n: nat,
      id: string)
    requires IsRun(c, states, labels) && i <= n < |states|
    requires id in states[i].rows && Terminal(states[i].rows[id].status)
    ensures id in states[n].rows && Terminal(states[n].rows[id].status)
  {
    if n > i {
      EndedNeverRunsAgain(c, states, labels, i, n - 1, id);
    }
  }

  // But which ending it shows can still change, and exactly in two ways: a worker that loaded the run
  // while it was STALE with its retries used up claims late, or a second holder reports a failure.
  lemma OverwriteExactly(c: Limits, s: State, l: Label, id: string)
    requires Inv(s) && Enabled(c, s, l) && id in s.rows && s.rows[id].status == COMPLETED
    ensures Apply(c, s, l).rows[id].status != COMPLETED
            <==> || (l.Claim? && s.loaded[l.worker].0 == id && OverBudget(s.loaded[l.worker].1, c.max))
                 || (l.Finish? && s.holds[l.worker].id == id && l.outcome == FAILED)
  {
    if l.Claim? { assert id == s.loaded[l.worker].0 ==> !Claimable(s.rows[id].status); }
  }

  // The first way happens, whatever the retry limit: the run goes stale until its retries are used up,
  // a worker selects it while STALE, the holder finishes, and the worker claims.
  lemma CompletedCanBeOverwritten(id: string, run: Run, c: Limits)
    requires run.status == PENDING && run.retryCount == 0
    ensures exists n, s, l :: Reaches(c, n, s) && Enabled(c, s, l)
              && id in s.rows && s.rows[id].status == COMPLETED
              && id in Apply(c, s, l).rows && Apply(c, s, l).rows[id].status == FAILED
  {
    var n, s := Attempts(id, run, c, c.max);
    var t := s.rows[id].heartbeatAt.value + c.threshold + 1;
    var m, s' := LateSelect(id, c, t, n, s);
    assert Enabled(c, s', Claim(2, t));
  }

  ghost predicate Reaches(c: Limits, n: nat, s: State) {
    exists states: seq<State>, labels: seq<Label> :: IsRun(c, states, labels) && |labels| == n && states[n] == s
  }

  lemma ExtendRun(c: Limits, states: seq<State>, labels: seq<Label>, l: Label)
    requires IsRun(c, states, labels) && Enabled(c, states[|labels|], l)
    ensures IsRun(c, states + [Apply(c, states[|labels|], l)], labels + [l])
  {
    var states', labels' := states + [Apply(c, states[|labels|], l)], labels + [l];
    forall i | 0 <= i < |labels'|
      ensures Enabled(c, states'[i], labels'[i]) && states'[i + 1] == Apply(c, states'[i], labels'[i])
    {
      if i < |labels| { assert states'[i + 1] == states[i + 1]; }
    }
  }

  lemma Extend(c: Limits, n: nat, s: State, l: Label)
    requires Reaches(c, n, s) && Enabled(c, s, l)
    ensures Reaches(c, n + 1, Apply(c, s, l))
  {
    var states: seq<State>, labels: seq<Label> :| IsRun(c, states, labels) && |labels| == n && states[n] == s;
    ExtendRun(c, states, labels, l);
    assert (states + [Apply(c, s, l)])[n + 1] == Apply(c, s, l);
  }

  // Worker 1 holds the run, RUNNING with k counted retries, and nobody else is about.
  ghost predicate Attempt(s: State, id: string, k: nat) {
    && s.rows.Keys == {id} && s.loaded == map[] && s.holds == map[1 := Holding(id, None)]
    && s.rows[id].status == RUNNING && s.rows[id].retryCount == k && s.rows[id].heartbeatAt.Some?
  }

  lemma {:induction false} Attempts(id: string, run: Run, c: Limits, k: nat) returns (n: nat, s: State)
    requires run.status == PENDING && run.retryCount == 0 && k <= c.max
    ensures Reaches(c, n, s) && Attempt(s, id, k)
  {
    if k == 0 {
      n, s := FirstAttempt(id, run, c);
    } else {
      n, s := Attempts(id, run, c, k - 1);
      n, s := NextAttempt(id, c, k - 1, n, s);
    }
  }

  lemma FirstAttempt(id: string, run: Run, c: Limits) returns (n: nat, s: State)
    requires run.status == PENDING && run.retryCount == 0
    ensures Reaches(c, n, s) && Attempt(s, id, 0)
  {
    assert IsRun(c, [INIT], []) && [INIT][0] == INIT;
    assert Reaches(c, 0, INIT);
    Extend(c, 0, INIT, Create(id, run));
    n, s := Reclaim(id, c, 1, Apply(c, INIT, Create(id, run)), 0);
  }

  lemma NextAttempt(id: string, c: Limits, k: nat, n0: nat, s0: State) returns (n: nat, s: State)
    requires Reaches(c, n0, s0) && Attempt(s0, id, k) && k < c.max
    ensures Reaches(c, n, s) && Attempt(s, id, k + 1)
  {
    var t := s0.rows[id].heartbeatAt.value + c.threshold + 1;
    Extend(c, n0, s0, Mark(id, t));
    var s1 := Apply(c, s0, Mark(id, t));
    Extend(c, n0 + 1, s1, Crash(1));
    n, s := Reclaim(id, c, n0 + 2, Apply(c, s1, Crash(1)), t);
  }

  // Selected and claimed at once.
  lemma Reclaim(id: string, c: Limits, n0: nat, s0: State, t: int) returns (n: nat, s: State)
    requires Reaches(c, n0, s0) && s0.rows.Keys == {id} && s0.loaded == map[] && s0.holds == map[]
    requires ClaimWins(s0.rows[id], s0.rows[id], c.max)
    ensures Reaches(c, n, s)
    ensures Attempt(s, id, s0.rows[id].retryCount + if s0.rows[id].status == STALE then 1 else 0)
  {
    Extend(c, n0, s0, Select(1, id));
    var s1 := Apply(c, s0, Select(1, id));
    Extend(c, n0 + 1, s1, Claim(1, t));
    n, s := n0 + 2, Apply(c, s1, Claim(1, t));
    assert s1.loaded - {1} == map[];
  }

  lemma LateSelect(id: string, c: Limits, t: int, n0: nat, s0: State) returns (n: nat, s: State)
    requires Reaches(c, n0, s0) && Attempt(s0, id, c.max) && t == s0.rows[id].heartbeatAt.value + c.threshold + 1
    ensures Reaches(c, n, s) && id in s.rows && s.rows[id].status == COMPLETED
    ensures Enabled(c, s, Claim(2, t)) && id in Apply(c, s, Claim(2, t)).rows
              && Apply(c, s, Claim(2, t)).rows[id].status == FAILED
  {
    Extend(c, n0, s0, Reload(1));
    var s1 := Apply(c, s0, Reload(1));
    Extend(c, n0 + 1, s1, Mark(id, t));
    var s2 := Apply(c, s1, Mark(id, t));
    Extend(c, n0 + 2, s2, Select(2, id));
    var s3 := Apply(c, s2, Select(2, id));
    Extend(c, n0 + 3, s3, Finish(1, COMPLETED, t));
    n, s := n0 + 4, Apply(c, s3, Finish(1, COMPLETED, t));
  }

  // So does the second way, whatever the retry limit: worker 2 loads the run while it is PENDING, so its
  // claim looks at no retries, and wins once the run of worker 1 has gone stale.
  lemma SecondHolderOverwrites(id: string, run: Run, c: Limits)
    requires run.status == PENDING
    ensures exists n, s, l :: Reaches(c, n, s) && Enabled(c, s, l) && l.Finish?
              && id in s.rows && s.rows[id].status == COMPLETED
              && id in Apply(c, s, l).rows && Apply(c, s, l).rows[id].status == FAILED
  {
    var s0 := BothLoaded(id, run, c);
    var s1 := BothHold(id, c, s0);
    var l := Finish(1, COMPLETED, c.threshold + 1);
    Extend(c, 8, s1, l);
    var s2 := Apply(c, s1, l);
    assert Reaches(c, 9, s2) && Enabled(c, s2, Finish(2, FAILED, c.threshold + 1));
  }

  ghost predicate Loaded(s: State, id: string) {
    && s.rows.Keys == {id} && s.rows[id].status == PENDING && s.holds == map[]
    && s.loaded == map[1 := (id, s.rows[id]), 2 := (id, s.rows[id])]
  }

  lemma BothLoaded(id: string, run: Run, c: Limits) returns (s: State)
    requires run.status == PENDING
    ensures Reaches(c, 3, s) && Loaded(s, id)
  {
    assert IsRun(c, [INIT], []) && [INIT][0] == INIT;
    assert Reaches(c, 0, INIT);
    Extend(c, 0, INIT, Create(id, run));
    var s1 := Apply(c, INIT, Create(id, run));
    Extend(c, 1, s1, Select(1, id));
    var s2 := Apply(c, s1, Select(1, id));
    Extend(c, 2, s2, Select(2, id));
    s := Apply(c, s2, Select(2, id));
  }

  lemma BothHold(id: string, c: Limits, s: State) returns (s': State)
    requires Reaches(c, 3, s) && Loaded(s, id)
    ensures Reaches(c, 8, s') && id in s'.rows && 1 in s'.holds && 2 in s'.holds
    ensures s'.holds[1].id == s'.holds[2].id == id && s'.holds[1].copy.Some? && s'.holds[2].copy.Some?
    ensures s'.holds[1].copy.value.status == s'.holds[2].copy.value.status == RUNNING
  {
    var t := c.threshold + 1;
    Extend(c, 3, s, Claim(1, 0));
    var s1 := Apply(c, s, Claim(1, 0));
    Extend(c, 4, s1, Reload(1));
    var s2 := Apply(c, s1, Reload(1));
    Extend(c, 5, s2, Mark(id, t));
    var s3 := Apply(c, s2, Mark(id, t));
    Extend(c, 6, s3, Claim(2, t));
    var s4 := Apply(c, s3, Claim(2, t));
    Extend(c, 7, s4, Reload(2));
    s' := Apply(c, s4, Reload(2));
  }
}

/** Workers behind the GPU lock that select and claim in one step, with a monotone clock. */
module LockedQueue {
  import opened Wrappers
  import opened TrainingRuns
  import opened ClaimProtocol

  // `active`: the run of the worker inside the lock. `beat`: a heartbeat its session has written and not
  // committed yet. `wins`: how often a run entered RUNNING.
  datatype Queue = Queue(rows: Table, active: Option<string>, beat: Option<int>, wins: map<string, nat>, now: int)

  datatype Action = Add(id: string, run: Run)
                  | Take(id: string)
                  | Beat
                  | Persist
                  | Sweep
                  | Done(outcome: Status)
                  | Die
                  | Tick(to: int)

  ghost predicate Can(c: Limits, q: Queue, a: Action) {
    match a
    case Add(id, run) => id !in q.rows && run.status == PENDING && run.retryCount == 0
    case Take(id) => q.active == None && IsNext(q.rows, id)
    case Beat => q.active.Some?
    case Persist => q.active.Some?
    case Sweep => true
    case Done(outcome) => q.active.Some? && Terminal(outcome)
    case Die => q.active.Some?
    case Tick(to) => q.now <= to
  }

  ghost function Do(c: Limits, q: Queue, a: Action): Queue
    requires Can(c, q, a)
  {
    match a
    case Add(id, run) => q.(rows := q.rows[id := run], wins := q.wins[id := 0])
    case Take(id) =>
      var row := q.rows[id];
      var q' := q.(rows := q.rows[id := ClaimedRow(row, row, c.max, q.now)]);
      if ClaimWins(row, row, c.max) then
        q'.(active := Some(id), beat := None, wins := q.wins[id := (if id in q.wins then q.wins[id] else 0) + 1])
      else q'
    case Beat =>
      var id := q.active.value;
      if id in q.rows && q.rows[id].status == RUNNING then q.(beat := Some(q.now)) else q
    case Persist =>
      var id := q.active.value;
      if q.beat.Some? && id in q.rows && q.rows[id].status == RUNNING then
        q.(rows := q.rows[id := q.rows[id].(heartbeatAt := q.beat)], beat := None)
      else q.(beat := None)
    case Sweep => q.(rows := Marked(q.rows, q.now, c.threshold))
    case Done(outcome) =>
      var id := q.active.value;
      if id in q.rows then
        q.(rows := q.rows[id := q.rows[id].(status := outcome, finishedAt := Some(q.now))], active := None,
          beat := None)
      else q.(active := None, beat := None)
    case Die => q.(active := None, beat := None)
    case Tick(to) => q.(now := to)
  }

  ghost predicate IsHistory(c: Limits, qs: seq<Queue>, acts: seq<Action>) {
    && |qs| == |acts| + 1 && qs[0].rows == map[] && qs[0].wins == map[] && qs[0].active == None && qs[0].beat == None
    && forall i :: 0 <= i < |acts| ==> Can(c, qs[i], acts[i]) && qs[i + 1] == Do(c, qs[i], acts[i])
  }

  ghost predicate QInv(c: Limits, q: Queue) {
    && q.wins.Keys == q.rows.Keys
    && (forall id :: id in q.rows ==>
          && q.rows[id].retryCount <= c.max
          && q.wins[id] == (if q.rows[id].status == PENDING then 0 else 1 + q.rows[id].retryCount)
          && (q.rows[id].status == PENDING ==> q.rows[id].retryCount == 0)
          && (q.rows[id].status == RUNNING ==> q.rows[id].heartbeatAt.Some? && q.rows[id].heartbeatAt.value <= q.now))
    && (q.active.Some? ==> q.active.value in q.rows && q.rows[q.active.value].status in {RUNNING, STALE})
    && (q.beat.Some? ==> q.beat.value <= q.now)
  }

  lemma TakeKeeps(c: Limits, q: Queue, id: string)
    requires QInv(c, q) && Can(c, q, Take(id))
    ensures QInv(c, Do(c, q, Take(id)))
  {
  }

  lemma SweepKeeps(c: Limits, q: Queue)
    requires QInv(c, q)
    ensures QInv(c, Do(c, q, Sweep))
  {
    var q' := Do(c, q, Sweep);
    assert q'.rows.Keys == q.rows.Keys;
  }

  lemma DoKeeps(c: Limits, q: Queue, a: Action)
    requires QInv(c, q) && Can(c, q, a)
    ensures QInv(c, Do(c, q, a))
  {
    match a
    case Take(id) => TakeKeeps(c, q, id);
    case Sweep => SweepKeeps(c, q);
    case _ =>
  }

  lemma DoKeepsEndings(c: Limits, q: Queue, a: Action, id: string)
    requires QInv(c, q) && Can(c, q, a)
    requires id in q.rows && Terminal(q.rows[id].status)
    ensures id in Do(c, q, a).rows && Do(c, q, a).rows[id] == q.rows[id]
  {
  }

  lemma {:induction false} QInvAlways(c: Limits, qs: seq<Queue>, acts: seq<Action>, i: nat)
    requires IsHistory(c, qs, acts) && i < |qs|
    ensures QInv(c, qs[i])
  {
    if i > 0 {
      QInvAlways(c, qs, acts, i - 1);
      DoKeeps(c, qs[i - 1], acts[i - 1]);
    }
  }

  // In every history a run enters RUNNING once plus once per counted retry, and never more than
  // 1 + max_stale_retries times.
  lemma BoundedRetries(c: Limits, qs: seq<Queue>, acts: seq<Action>, i: nat, id: string)
    requires IsHistory(c, qs, acts) && i < |qs| && id in qs[i].rows
    ensures id in qs[i].wins && qs[i].wins[id] <= 1 + c.max && qs[i].rows[id].retryCount <= c.max
    ensures qs[i].rows[id].status != PENDING ==> qs[i].wins[id] == 1 + qs[i].rows[id].retryCount
  {
    QInvAlways(c, qs, acts, i);
  }

  // COMPLETED and FAILED are absorbing: the whole row stays as it is.
  lemma {:induction false} EndingsAbsorb(c: Limits, qs: seq<Queue>, acts: seq<Action>, i: nat, n: nat, id: string)
    requires IsHistory(c, qs, acts) && i <= n < |qs|
    requires id in qs[i].rows && Terminal(qs[i].rows[id].status)
    ensures id in qs[n].rows && qs[n].rows[id] == qs[i].rows[id]
  {
    if n > i {
      EndingsAbsorb(c, qs, acts, i, n - 1, id);
      QInvAlways(c, qs, acts, n - 1);
      DoKeepsEndings(c, qs[n - 1], acts[n - 1], id);
    }
  }

  // What is left to spend on a run.
  function Budget(c: Limits, r: Run): nat {
    if Terminal(r.status) then 0
    else 1 + (if r.status == PENDING then 1 else 0) + (if r.retryCount <= c.max then c.max - r.retryCount else 0)
  }

  // Every claim, won or refused, spends some of it, and no other action gives any back.
  lemma ClaimsSpendBudget(c: Limits, q: Queue, a: Action, id: string)
    requires QInv(c, q) && Can(c, q, a) && id in q.rows
    ensures id in Do(c, q, a).rows && Budget(c, Do(c, q, a).rows[id]) <= Budget(c, q.rows[id])
    ensures a == Take(id) ==> Budget(c, Do(c, q, a).rows[id]) < Budget(c, q.rows[id])
  {
  }

  // A sweep reclaims exactly the runs whose last persisted heartbeat is older than the threshold.
  lemma SweepReclaimsExactly(c: Limits, q: Queue, id: string)
    requires QInv(c, q) && id in q.rows && q.rows[id].status == RUNNING
    ensures Do(c, q, Sweep).rows[id].status == STALE <==> q.now - q.rows[id].heartbeatAt.value > c.threshold
    ensures Do(c, q, Sweep).rows[id].status != STALE ==> Do(c, q, Sweep).rows[id] == q.rows[id]
  {
  }

  // The last heartbeat the worker that claimed at step i - 1 has written since its last commit.
  ghost function Unsaved(qs: seq<Queue>, acts: seq<Action>, i: nat, k: nat): Option<int>
    requires i <= k <= |acts| < |qs|
  {
    if k == i || acts[k - 1].Persist? then None
    else if acts[k - 1].Beat? then Some(qs[k - 1].now)
    else Unsaved(qs, acts, i, k - 1)
  }

  // The last heartbeat it has committed before step k, or its claim.
  ghost function LastSign(qs: seq<Queue>, acts: seq<Action>, i: nat, k: nat): int
    requires i <= k <= |acts| < |qs|
  {
    if k == i then qs[i].now
    else if Signs(qs, acts, i, k - 1) then Unsaved(qs, acts, i, k - 1).value
    else LastSign(qs, acts, i, k - 1)
  }

  // Step k commits a heartbeat.
  ghost predicate Signs(qs: seq<Queue>, acts: seq<Action>, i: nat, k: nat)
    requires i <= k < |acts| < |qs|
  {
    acts[k].Persist? && Unsaved(qs, acts, i, k).Some?
  }

  // The worker that claimed `id` at step i - 1 still works on it in state n.
  ghost predicate Holds(c: Limits, qs: seq<Queue>, acts: seq<Action>, i: nat, n: nat, id: string) {
    && IsHistory(c, qs, acts) && 0 < i <= n < |qs|
    && acts[i - 1] == Take(id) && qs[i].active == Some(id)
    && forall k :: i <= k < n ==> !acts[k].Done? && !acts[k].Die?
  }

  ghost predicate SweptLate(c: Limits, qs: seq<Queue>, acts: seq<Action>, i: nat, k: nat)
    requires i <= k < |acts| < |qs|
  {
    acts[k].Sweep? && qs[k].now - LastSign(qs, acts, i, k) > c.threshold
  }

  // A worker keeps its run exactly when no sweep came later than the threshold after the last heartbeat it
  // had committed, counting the claim as the first.
  lemma {:induction false} KeepsItsRunExactly(c: Limits, qs: seq<Queue>, acts: seq<Action>, i: nat, n: nat, id: string)
    requires Holds(c, qs, acts, i, n, id)
    ensures qs[n].active == Some(id) && id in qs[n].rows && qs[n].rows[id].status in {RUNNING, STALE}
    ensures qs[n].rows[id].status == RUNNING <==> forall k :: i <= k < n ==> !SweptLate(c, qs, acts, i, k)
    ensures qs[n].rows[id].status == RUNNING ==>
              qs[n].rows[id].heartbeatAt == Some(LastSign(qs, acts, i, n)) && qs[n].beat == Unsaved(qs, acts, i, n)
  {
    QInvAlways(c, qs, acts, n - 1);
    var q, a := qs[n - 1], acts[n - 1];
    if n > i {
      KeepsItsRunExactly(c, qs, acts, i, n - 1, id);
      HeldStep(c, q, a, id);
      assert SweptLate(c, qs, acts, i, n - 1) <==> a.Sweep? && q.now - LastSign(qs, acts, i, n - 1) > c.threshold;
    } else {
      ClaimSigns(c, q, id);
    }
  }

  lemma HeldStep(c: Limits, q: Queue, a: Action, id: string)
    requires QInv(c, q) && Can(c, q, a) && !a.Done? && !a.Die?
    requires q.active == Some(id) && id in q.rows && q.rows[id].status in {RUNNING, STALE}
    ensures Do(c, q, a).active == Some(id) && id in Do(c, q, a).rows && Do(c, q, a).rows[id].status in {RUNNING, STALE}
    ensures Do(c, q, a).rows[id].status == RUNNING <==>
              q.rows[id].status == RUNNING && !(a.Sweep? && q.now - q.rows[id].heartbeatAt.value > c.threshold)
    ensures Do(c, q, a).rows[id].status == RUNNING ==>
              && Do(c, q, a).rows[id].heartbeatAt
                   == (if a.Persist? && q.beat.Some? then q.beat else q.rows[id].heartbeatAt)
              && Do(c, q, a).beat == (if a.Beat? then Some(q.now) else if a.Persist? then None else q.beat)
  {
  }

  lemma ClaimSigns(c: Limits, q: Queue, id: string)
    requires QInv(c, q) && Can(c, q, Take(id)) && Do(c, q, Take(id)).active == Some(id)
    ensures var q' := Do(c, q, Take(id));
            q'.rows[id].status == RUNNING && q'.rows[id].heartbeatAt == Some(q'.now) && q'.beat == None
  {
  }

  // The worker's commits: none with a heartbeat comes later than the threshold after the heartbeat
  // committed before it (or the claim), and in state n the next one is not overdue.
  ghost predicate Timely(c: Limits, qs: seq<Queue>, acts: seq<Action>, i: nat, n: nat)
    requires i <= n <= |acts| < |qs|
  {
    && qs[n].now - LastSign(qs, acts, i, n) <= c.threshold
    && forall k :: i <= k < n && Signs(qs, acts, i, k) ==> qs[k].now - LastSign(qs, acts, i, k) <= c.threshold
  }

  lemma {:induction false} NeverOverdue(c: Limits, qs: seq<Queue>, acts: seq<Action>, i: nat, k: nat, n: nat)
    requires IsHistory(c, qs, acts) && i <= k <= n < |qs| && Timely(c, qs, acts, i, n)
    ensures qs[k].now - LastSign(qs, acts, i, k) <= c.threshold
    decreases n - k
  {
    if k < n && !Signs(qs, acts, i, k) {
      NeverOverdue(c, qs, acts, i, k + 1, n);
      assert qs[k + 1] == Do(c, qs[k], acts[k]) && qs[k].now <= qs[k + 1].now;
    }
  }

  // A worker whose heartbeats are committed in time keeps its run, however the sweeps fall.
  lemma AliveKeepsItsRun(c: Limits, qs: seq<Queue>, acts: seq<Action>, i: nat, n: nat, id: string)
    requires Holds(c, qs, acts, i, n, id) && Timely(c, qs, acts, i, n)
    ensures qs[n].active == Some(id) && id in qs[n].rows && qs[n].rows[id].status == RUNNING
  {
    forall k | i <= k < n ensures !SweptLate(c, qs, acts, i, k) {
      NeverOverdue(c, qs, acts, i, k, n);
    }
    KeepsItsRunExactly(c, qs, acts, i, n, id);
  }

  // A crashed worker's run is always recovered: once its heartbeat is old enough, one sweep makes it
  // claimable again.
  lemma CrashedRunRecovered(c: Limits, q: Queue, id: string, late: int)
    requires QInv(c, q) && id in q.rows && q.rows[id].status == RUNNING
    requires late > q.now && late - q.rows[id].heartbeatAt.value > c.threshold
    ensures Claimable(Do(c, Do(c, q, Tick(late)), Sweep).rows[id].status)
  {
  }
}
