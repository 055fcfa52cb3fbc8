/** Workers on any number of hosts that claim, train and register, each host's workers behind that host's
    GPU lock, with open database transactions that may commit or roll back at any time after the lock is
    gone.

    A worker's transaction takes its number as MAX + 1 inside a savepoint; the unique key on
    (model, version) makes a second insert of the same number wait for the first transaction and then
    fail. The artifact store is not part of the transaction. */
module Registrations {
  import opened Wrappers
  import opened TrainingRuns
  import opened VersionNames

  datatype Job = Job(model: string, base: string)

  // Kept: the artifact step is over. `stored`: the directory exists; `clean`: no timeout cut it short.
  // Training's `copy` is the worker's copy of the row, expired by each of its commits until it is loaded again.
  datatype Phase = Claimed | Training(copy: Option<Run>) | Failing | Completing
                 | Looked(seen: nat)
                 | Inserted(version: nat)
                 | Kept(version: nat, stored: bool, clean: bool)

  // `row`: the run's row as the transaction would commit it, once it has changed it. `base`: the latest number
  // when the registration began; `conflicts`, `busys`: its failed attempts.
  datatype Tx = Tx(run: string, job: Job, row: Run, phase: Phase, base: nat, conflicts: nat, busys: nat)

  datatype Version = Version(run: string, base: string, stored: bool, clean: bool)

  type Versions = map<(string, nat), Version>

  datatype State = State(rows: Table, jobs: map<string, Job>, selected: map<nat, (string, Run)>,
                         inside: map<nat, nat>, open: map<nat, Tx>, versions: Versions,
                         dirs: set<string>, written: seq<string>, orphans: set<string>, overwritten: set<string>)

  // A transaction's own next step, from the end of training to the stored artifact.
  datatype Move = Fail(now: int)
                | Complete(now: int, latest: nat)
                | Look(latest: nat)
                | Insert
                | Busy
                | Store
                | StoreTimesOut(created: bool)

  datatype Label = Create(id: string, job: Job, run: Run)
                 | Select(w: nat, id: string)
                 | Enter(w: nat)
                 | Claim(w: nat, now: int)
                 | Progress(w: nat)
                 | Reload(w: nat)
                 | Step(w: nat, move: Move)
                 | Leave(w: nat)
                 | Commit(w: nat)
                 | Abort(w: nat)
                 | Mark(id: string, now: int)

  // `hostOf` says which host, and so which lock file, a worker uses.
  datatype Limits = Limits(maxStaleRetries: nat, staleThreshold: nat, hostOf: nat -> nat)

  const MAX_VERSION_RETRIES := 30

  const INIT := State(map[], map[], map[], map[], map[], map[], {}, [], {}, {})

  // MAX(version) of the committed rows of a model, 0 for none.
  ghost predicate IsLatest(vs: Versions, m: string, n: nat) {
    && (n > 0 ==> (m, n) in vs)
    && forall k :: k in vs && k.0 == m ==> k.1 <= n
  }

  predicate Numbered(p: Phase) { p.Inserted? || p.Kept? }

  // A flushed change locks the run's row until the transaction ends.
  predicate Locks(t: Tx) { !t.phase.Training? }

  ghost predicate RowFree(s: State, id: string) { forall w :: w in s.open && s.open[w].run == id ==> !Locks(s.open[w]) }

  ghost predicate RowFreeFor(s: State, w: nat, id: string) {
    forall v :: v in s.open && v != w && s.open[v].run == id ==> !Locks(s.open[v])
  }

  ghost predicate KeyFree(s: State, m: string, v: nat) {
    forall w :: w in s.open && Numbered(s.open[w].phase) && s.open[w].job.model == m ==> s.open[w].phase.version != v
  }

  predicate Done(p: Phase) { p == Failing || p.Kept? }

  function PathOf(t: Tx): string
    requires Numbered(t.phase)
  {
    ArtifactPath(t.job.model, t.job.base, t.phase.version)
  }

  // The worker's copy of the run shows RUNNING.
  predicate Running(t: Tx) {
    t.phase.Claimed? || (t.phase.Training? && t.phase.copy.Some? && t.phase.copy.value.status == RUNNING)
  }

  // The row a change of the transaction starts from.
  function Current(rows: Table, t: Tx): Run { if t.phase.Training? && t.run in rows then rows[t.run] else t.row }

  predicate Inside(c: Limits, inside: map<nat, nat>, w: nat) { c.hostOf(w) in inside && inside[c.hostOf(w)] == w }

  function Without(c: Limits, inside: map<nat, nat>, w: nat): map<nat, nat> {
    if Inside(c, inside, w) then inside - {c.hostOf(w)} else inside
  }

  // What a move needs of the committed versions and of its own transaction.
  ghost predicate CanMove(vs: Versions, t: Tx, m: Move) {
    match m
    case Fail(_) => Running(t)
    case Complete(_, latest) => Running(t) && IsLatest(vs, t.job.model, latest)
    case Look(latest) =>
      t.phase == Completing && t.conflicts + t.busys < MAX_VERSION_RETRIES && IsLatest(vs, t.job.model, latest)
    case Insert => t.phase.Looked?
    case Busy => t.phase.Looked?
    case Store => t.phase.Inserted?
    case StoreTimesOut(_) => t.phase.Inserted?
  }

  ghost function Moved(vs: Versions, rows: Table, t: Tx, m: Move): Tx
    requires CanMove(vs, t, m)
  {
    match m
    case Fail(now) => t.(phase := Failing, row := Current(rows, t).(status := FAILED, finishedAt := Some(now)))
    case Complete(now, latest) =>
      t.(phase := Completing, row := Current(rows, t).(status := COMPLETED, finishedAt := Some(now)), base := latest)
    case Look(latest) => t.(phase := Looked(latest))
    case Insert =>
      var next := t.phase.seen + 1;
      if (t.job.model, next) in vs then t.(phase := Completing, conflicts := t.conflicts + 1)
      else t.(phase := Inserted(next))
    case Busy => t.(phase := Completing, busys := t.busys + 1)
    case Store => t.(phase := Kept(t.phase.version, true, true))
    case StoreTimesOut(created) => t.(phase := Kept(t.phase.version, created, false))
  }

  // The artifact directory a move creates, if it creates one.
  predicate Creates(m: Move) { m.Store? || (m.StoreTimesOut? && m.created) }

  ghost predicate Enabled(c: Limits, s: State, l: Label) {
    match l
    case Create(id, job, run) => id !in s.rows && run.status == PENDING && '/' !in job.model
    case Select(w, id) => w !in s.open && id in s.rows && Claimable(s.rows[id].status)
    case Enter(w) => c.hostOf(w) !in s.inside && w !in s.open && w in s.selected
    case Claim(w, _) => Inside(c, s.inside, w) && w !in s.open && w in s.selected && RowFree(s, s.selected[w].0)
    case Progress(w) => w in s.open && Running(s.open[w]) && RowFreeFor(s, w, s.open[w].run)
    case Reload(w) => w in s.open && s.open[w].phase == Training(None) && s.open[w].run in s.rows
    case Step(w, m) =>
      && w in s.open && CanMove(s.versions, s.open[w], m)
      && (m.Fail? || m.Complete? ==> RowFreeFor(s, w, s.open[w].run))
      && (m == Insert ==> KeyFree(s, s.open[w].job.model, s.open[w].phase.seen + 1))
      && (m.Store? || m.StoreTimesOut? ==> PathOf(s.open[w]) !in s.dirs)
    case Leave(w) => Inside(c, s.inside, w) && (w in s.open ==> Done(s.open[w].phase))
    case Commit(w) => w in s.open && !Inside(c, s.inside, w) && Done(s.open[w].phase)
    case Abort(w) => w in s.open
    case Mark(id, now) => id in s.rows && Lapsed(s.rows[id], now, c.staleThreshold) && RowFree(s, id)
  }

  ghost function Apply(c: Limits, s: State, l: Label): State
    requires Enabled(c, s, l)
  {
    match l
    case Create(id, job, run) => s.(rows := s.rows[id := run], jobs := s.jobs[id := job])
    case Select(w, id) => s.(selected := s.selected[w := (id, s.rows[id])])
    case Enter(w) => s.(inside := s.inside[c.hostOf(w) := w])
    case Claim(w, now) => Claiming(c, s, w, now)
    case Progress(w) =>
      var t := s.open[w];
      s.(rows := s.rows[t.run := Current(s.rows, t)], open := s.open[w := t.(phase := Training(None))])
    case Reload(w) =>
      var t := s.open[w];
      s.(open := s.open[w := t.(phase := Training(Some(s.rows[t.run])))])
    case Step(w, m) => Stepping(s, w, m)
    case Leave(w) => s.(inside := Without(c, s.inside, w))
    case Commit(w) => Committing(s, w)
    case Abort(w) => Aborting(c, s, w)
    case Mark(id, now) => s.(rows := s.rows[id := s.rows[id].(status := STALE)])
  }

  ghost function Stepping(s: State, w: nat, m: Move): State
    requires w in s.open && CanMove(s.versions, s.open[w], m)
  {
    var s' := s.(open := s.open[w := Moved(s.versions, s.rows, s.open[w], m)]);
    if Creates(m) then s'.(dirs := s.dirs + {PathOf(s.open[w])}, written := s.written + [PathOf(s.open[w])]) else s'
  }

  // A rollback cannot take the directory back.
  ghost function Aborting(c: Limits, s: State, w: nat): State
    requires w in s.open
  {
    var t := s.open[w];
    s.(open := s.open - {w},
       inside := Without(c, s.inside, w),
       orphans := if t.phase.Kept? && t.phase.stored then s.orphans + {PathOf(t)} else s.orphans)
  }

  // A won claim stays uncommitted. A refused one is committed at once: the worker leaves the lock with
  // whatever its old copy made it write.
  ghost function Claiming(c: Limits, s: State, w: nat, now: int): State
    requires Enabled(c, s, Claim(w, now))
  {
    var (id, snap) := s.selected[w];
    var s' := s.(selected := s.selected - {w});
    if id !in s.rows || id !in s.jobs then s'.(inside := Without(c, s.inside, w))
    else
      var row := ClaimedRow(s.rows[id], snap, c.maxStaleRetries, now);
      if ClaimWins(s.rows[id], snap, c.maxStaleRetries) then
        s'.(open := s.open[w := Tx(id, s.jobs[id], row, Claimed, 0, 0, 0)])
      else
        s'.(rows := s.rows[id := row], inside := Without(c, s.inside, w),
            overwritten := if s.rows[id].status == COMPLETED && row.status == FAILED then s.overwritten + {id}
              else s.overwritten)
  }

  ghost function Committing(s: State, w: nat): State
    requires w in s.open && Done(s.open[w].phase)
  {
    var t := s.open[w];
    var s' := s.(rows := s.rows[t.run := t.row], open := s.open - {w});
    if t.phase.Kept? then
      s'.(versions :=
        s.versions[(t.job.model, t.phase.version) := Version(t.run, t.job.base, t.phase.stored, t.phase.clean)])
    else s'
  }

  ghost predicate IsRun(c: Limits, states: seq<State>, labels: seq<Label>) {
    && |states| == |labels| + 1 && states[0] == INIT
    && forall i :: 0 <= i < |labels| ==>
         Enabled(c, states[i], labels[i]) && states[i + 1] == Apply(c, states[i], labels[i])
  }

  // ----- The invariant -----

  ghost predicate Contiguous(vs: Versions) {
    && (forall k :: k in vs ==> k.1 >= 1)
    && (forall j: (string, nat), k :: k in vs && j.0 == k.0 && 1 <= j.1 <= k.1 ==> j in vs)
  }

  ghost predicate AtOrBelow(vs: Versions, m: string, n: nat) { n == 0 || (m, n) in vs }

  ghost predicate Unregistered(vs: Versions, id: string) { forall k :: k in vs ==> vs[k].run != id }

  type Txs = map<nat, Tx>

  type Jobs = map<string, Job>

  ghost predicate TxOk(jobs: Jobs, t: Tx) {
    && t.run in jobs && jobs[t.run] == t.job
    && (!t.phase.Training? ==>
          t.row.status == (if t.phase.Failing? then FAILED else if t.phase.Claimed? then RUNNING else COMPLETED))
  }

  ghost predicate NumberOk(vs: Versions, t: Tx) {
    && AtOrBelow(vs, t.job.model, t.base + t.conflicts)
    && (t.phase.Looked? ==> t.phase.seen >= t.base + t.conflicts && AtOrBelow(vs, t.job.model, t.phase.seen))
    && (Numbered(t.phase) ==>
          && t.phase.version >= 1 && (t.job.model, t.phase.version) !in vs
          && AtOrBelow(vs, t.job.model, t.phase.version - 1))
    && (t.phase.Claimed? || t.phase.Training? ==> t.conflicts == 0)
  }

  predicate SameNumber(t: Tx, u: Tx) {
    Numbered(t.phase) && Numbered(u.phase) && t.job.model == u.job.model && t.phase.version == u.phase.version
  }

  ghost predicate Apart(open: Txs) { forall v, w :: v in open && w in open && v != w ==> !SameNumber(open[v], open[w]) }

  ghost predicate TxsOk(jobs: Jobs, vs: Versions, open: Txs) {
    && (forall w :: w in open ==> TxOk(jobs, open[w]))
    && (forall w :: w in open ==> NumberOk(vs, open[w]))
  }

  // What a registered run may show.
  ghost predicate ShowsVersion(rows: Table, overwritten: set<string>, id: string) {
    && id in rows
    && (rows[id].status == COMPLETED || (rows[id].status == FAILED && id in overwritten))
  }

  ghost predicate RunsOk(rows: Table, vs: Versions, overwritten: set<string>) {
    && (forall k :: k in vs ==> ShowsVersion(rows, overwritten, vs[k].run))
    && (forall j, k :: j in vs && k in vs && vs[j].run == vs[k].run ==> j == k)
    && (forall id :: id in rows && rows[id].status == COMPLETED ==> !Unregistered(vs, id))
  }

  ghost predicate Known(s: State) {
    s.rows.Keys == s.jobs.Keys && forall w :: w in s.selected ==> s.selected[w].0 in s.rows
  }

  ghost predicate Inv(s: State) {
    && Contiguous(s.versions)
    && Apart(s.open)
    && TxsOk(s.jobs, s.versions, s.open)
    && Known(s)
  }

  // ----- Every step keeps it -----

  // Replacing one transaction by a later phase of itself, or adding one.
  lemma TxPut(jobs: Jobs, vs: Versions, open: Txs, w: nat, t: Tx)
    requires TxsOk(jobs, vs, open) && Apart(open)
    requires TxOk(jobs, t) && NumberOk(vs, t)
    requires forall v :: v in open && v != w ==> !SameNumber(open[v], t)
    ensures TxsOk(jobs, vs, open[w := t]) && Apart(open[w := t])
  {
  }

  lemma MoveKeeps(s: State, w: nat, m: Move)
    requires Inv(s) && w in s.open && CanMove(s.versions, s.open[w], m)
    requires m == Insert ==> KeyFree(s, s.open[w].job.model, s.open[w].phase.seen + 1)
    ensures Inv(Stepping(s, w, m))
  {
    MovedOk(s.jobs, s.versions, s.rows, s.open[w], m);
    MoveApart(s, w, m);
    TxPut(s.jobs, s.versions, s.open, w, Moved(s.versions, s.rows, s.open[w], m));
    SteppingFrame(s, w, m);
  }

  lemma SteppingFrame(s: State, w: nat, m: Move)
    requires w in s.open && CanMove(s.versions, s.open[w], m)
    ensures var s' := Stepping(s, w, m);
            && s'.rows == s.rows && s'.jobs == s.jobs && s'.selected == s.selected && s'.inside == s.inside
            && s'.versions == s.versions && s'.overwritten == s.overwritten && s'.orphans == s.orphans
            && s'.dirs == (if Creates(m) then s.dirs + {PathOf(s.open[w])} else s.dirs)
            && s'.written == (if Creates(m) then s.written + [PathOf(s.open[w])] else s.written)
            && s'.open == s.open[w := Moved(s.versions, s.rows, s.open[w], m)]
  {
  }

  lemma MoveApart(s: State, w: nat, m: Move)
    requires Apart(s.open) && w in s.open && CanMove(s.versions, s.open[w], m)
    requires m == Insert ==> KeyFree(s, s.open[w].job.model, s.open[w].phase.seen + 1)
    ensures forall v :: v in s.open && v != w ==> !SameNumber(s.open[v], Moved(s.versions, s.rows, s.open[w], m))
  {
    forall v | v in s.open && v != w ensures !SameNumber(s.open[v], Moved(s.versions, s.rows, s.open[w], m)) {
      assert !SameNumber(s.open[v], s.open[w]);
    }
  }

  lemma MovedOk(jobs: Jobs, vs: Versions, rows: Table, t: Tx, m: Move)
    requires Contiguous(vs) && TxOk(jobs, t) && NumberOk(vs, t) && CanMove(vs, t, m)
    ensures TxOk(jobs, Moved(vs, rows, t, m)) && NumberOk(vs, Moved(vs, rows, t, m))
  {
    if m == Insert && (t.job.model, t.phase.seen + 1) in vs {
      DownClosed(vs, t.job.model, t.phase.seen + 1, t.base + t.conflicts + 1);
    } else if m.Look? {
      LatestIsMost(vs, t.job.model, m.latest, t.base + t.conflicts);
    }
  }

  lemma LatestIsMost(vs: Versions, m: string, latest: nat, n: nat)
    requires IsLatest(vs, m, latest) && AtOrBelow(vs, m, n)
    ensures n <= latest && AtOrBelow(vs, m, latest)
  {
  }

  lemma DownClosed(vs: Versions, m: string, n: nat, k: nat)
    requires Contiguous(vs) && AtOrBelow(vs, m, n) && k <= n
    ensures AtOrBelow(vs, m, k)
  {
    assert n > 0 ==> (m, n) in vs;
  }

  // Steps on the rows and the locks alone.
  lemma OuterKeeps(c: Limits, s: State, l: Label)
    requires Inv(s) && Enabled(c, s, l) && (l.Create? || l.Select? || l.Enter? || l.Leave? || l.Mark?)
    ensures Inv(Apply(c, s, l))
  {
    var s' := Apply(c, s, l);
    assert TxsOk(s'.jobs, s.versions, s.open);
  }

  lemma RunningKeeps(c: Limits, s: State, l: Label)
    requires Inv(s) && Enabled(c, s, l) && (l.Progress? || l.Reload?)
    ensures Inv(Apply(c, s, l))
  {
    var t := s.open[l.w];
    assert TxOk(s.jobs, t) && NumberOk(s.versions, t);
    TxPut(s.jobs, s.versions, s.open, l.w, Apply(c, s, l).open[l.w]);
  }

  lemma ClaimKeeps(c: Limits, s: State, l: Label)
    requires Inv(s) && Enabled(c, s, l) && l.Claim?
    ensures Inv(Apply(c, s, l))
  {
    var (id, snap) := s.selected[l.w];
    assert id in s.rows && id in s.jobs;
    if ClaimWins(s.rows[id], snap, c.maxStaleRetries) {
      var t := Tx(id, s.jobs[id], ClaimedRow(s.rows[id], snap, c.maxStaleRetries, l.now), Claimed, 0, 0, 0);
      TxPut(s.jobs, s.versions, s.open, l.w, t);
    }
  }

  lemma AbortKeeps(c: Limits, s: State, w: nat)
    requires Inv(s) && w in s.open
    ensures Inv(Aborting(c, s, w))
  {
    assert TxsOk(s.jobs, s.versions, s.open - {w});
  }

  // A committed number is the successor of the latest one, and no other transaction holds it.
  lemma CommitNumbers(vs: Versions, open: Txs, w: nat, x: Version)
    requires Contiguous(vs) && Apart(open) && w in open && open[w].phase.Kept?
    requires forall v :: v in open ==> NumberOk(vs, open[v])
    ensures var vs' := vs[(open[w].job.model, open[w].phase.version) := x];
            Contiguous(vs') && forall v :: v in open && v != w ==> NumberOk(vs', open[v])
  {
    var t := open[w];
    var vs' := vs[(t.job.model, t.phase.version) := x];
    assert NumberOk(vs, t);
    forall v | v in open && v != w ensures NumberOk(vs', open[v]) {
      var u := open[v];
      assert NumberOk(vs, u) && !SameNumber(t, u);
      if Numbered(u.phase) && u.job.model == t.job.model {
        SuccessorsAgree(vs, t.job.model, t.phase.version, u.phase.version);
      }
    }
  }

  lemma SuccessorsAgree(vs: Versions, m: string, a: nat, b: nat)
    requires Contiguous(vs) && a >= 1 && b >= 1
    requires (m, a) !in vs && AtOrBelow(vs, m, a - 1) && (m, b) !in vs && AtOrBelow(vs, m, b - 1)
    ensures a == b
  {
    assert a < b ==> (m, b - 1) in vs;
    assert b < a ==> (m, a - 1) in vs;
  }

  lemma CommitKeeps(s: State, w: nat)
    requires Inv(s) && w in s.open && Done(s.open[w].phase)
    ensures Inv(Committing(s, w))
  {
    var t := s.open[w];
    assert TxOk(s.jobs, t) && NumberOk(s.versions, t);
    if t.phase.Kept? {
      CommitNumbers(s.versions, s.open, w, Version(t.run, t.job.base, t.phase.stored, t.phase.clean));
    }
  }

  lemma StepKeeps(c: Limits, s: State, l: Label)
    requires Inv(s) && Enabled(c, s, l)
    ensures Inv(Apply(c, s, l))
  {
    match l
    case Claim(_, _) => ClaimKeeps(c, s, l);
    case Progress(_) => RunningKeeps(c, s, l);
    case Reload(_) => RunningKeeps(c, s, l);
    case Step(w, m) => MoveKeeps(s, w, m);
    case Commit(w) => CommitKeeps(s, w);
    case Abort(w) => AbortKeeps(c, s, w);
    case _ => OuterKeeps(c, s, l);
  }

  lemma {:induction false} InvAlways(c: Limits, states: seq<State>, labels: seq<Label>, i: nat)
    requires IsRun(c, states, labels) && i < |states|
    ensures Inv(states[i])
  {
    if i > 0 {
      InvAlways(c, states, labels, i - 1);
      StepKeeps(c, states[i - 1], labels[i - 1]);
    }
  }

  // ----- The store beside the transactions -----

  function VersionPath(key: (string, nat), x: Version): string { ArtifactPath(key.0, x.base, key.1) }

  predicate OpenOwns(t: Tx, p: string) { t.phase.Kept? && t.phase.stored && PathOf(t) == p }

  ghost predicate Owned(vs: Versions, open: Txs, p: string) {
    || (exists k :: k in vs && vs[k].stored && VersionPath(k, vs[k]) == p)
    || (exists w :: w in open && OpenOwns(open[w], p))
  }

  // Every directory was written once and belongs to a version, to an open transaction or to nobody.
  ghost predicate Directories(dirs: set<string>, written: seq<string>, orphans: set<string>, vs: Versions, open: Txs) {
    && (forall i, j :: 0 <= i < j < |written| ==> written[i] != written[j])
    && (forall p :: p in dirs <==> p in written)
    && orphans <= dirs
    && (forall p :: p in dirs && p !in orphans ==> Owned(vs, open, p))
  }

  ghost predicate NotOrphaned(dirs: set<string>, orphans: set<string>, vs: Versions, open: Txs) {
    && (forall w :: w in open && open[w].phase.Kept? ==>
          PathOf(open[w]) !in orphans && (open[w].phase.stored ==> PathOf(open[w]) in dirs))
    && (forall k :: k in vs ==> VersionPath(k, vs[k]) !in orphans && (vs[k].stored ==> VersionPath(k, vs[k]) in dirs))
  }

  ghost predicate SlashFree(jobs: Jobs, vs: Versions) {
    && (forall id :: id in jobs ==> '/' !in jobs[id].model)
    && (forall k :: k in vs ==> '/' !in k.0)
  }

  ghost predicate StoreInv(s: State) {
    && Directories(s.dirs, s.written, s.orphans, s.versions, s.open)
    && NotOrphaned(s.dirs, s.orphans, s.versions, s.open)
    && SlashFree(s.jobs, s.versions)
  }

  // A new phase that owns the same directories owns them still.
  lemma OwnedStays(vs: Versions, open: Txs, w: nat, t: Tx, p: string)
    requires Owned(vs, open, p) && (w in open && OpenOwns(open[w], p) ==> OpenOwns(t, p))
    ensures Owned(vs, open[w := t], p)
  {
    if v :| v in open && OpenOwns(open[v], p) {
      assert OpenOwns(open[w := t][v], p);
    }
  }

  lemma MoveStores(s: State, w: nat, m: Move)
    requires StoreInv(s) && w in s.open && CanMove(s.versions, s.open[w], m)
    requires m.Store? || m.StoreTimesOut? ==> PathOf(s.open[w]) !in s.dirs
    ensures StoreInv(Stepping(s, w, m))
  {
    var t := s.open[w];
    var t' := Moved(s.versions, s.rows, t, m);
    SteppingFrame(s, w, m);
    if Creates(m) {
      DirectoryAdded(s.dirs, s.written, s.orphans, s.versions, s.open, w, t', PathOf(t));
    } else {
      DirectoriesStay(s.dirs, s.written, s.orphans, s.versions, s.open, w, t');
    }
  }

  lemma DirectoryAdded(dirs: set<string>, written: seq<string>, orphans: set<string>, vs: Versions, open: Txs, w: nat,
      t: Tx,
                       path: string)
    requires Directories(dirs, written, orphans, vs, open) && NotOrphaned(dirs, orphans, vs, open)
    requires w in open && !open[w].phase.Kept? && OpenOwns(t, path) && path !in dirs
    ensures Directories(dirs + {path}, written + [path], orphans, vs, open[w := t])
    ensures NotOrphaned(dirs + {path}, orphans, vs, open[w := t])
  {
    forall p | p in dirs + {path} && p !in orphans ensures Owned(vs, open[w := t], p) {
      if p in dirs { OwnedStays(vs, open, w, t, p); } else { assert OpenOwns(open[w := t][w], p); }
    }
  }

  lemma DirectoriesStay(dirs: set<string>, written: seq<string>, orphans: set<string>, vs: Versions, open: Txs, w: nat,
      t: Tx)
    requires Directories(dirs, written, orphans, vs, open) && NotOrphaned(dirs, orphans, vs, open)
    requires w in open && !open[w].phase.Kept? && (t.phase.Kept? ==> !t.phase.stored && PathOf(t) !in dirs)
    ensures Directories(dirs, written, orphans, vs, open[w := t]) && NotOrphaned(dirs, orphans, vs, open[w := t])
  {
    forall p | p in dirs && p !in orphans ensures Owned(vs, open[w := t], p) {
      OwnedStays(vs, open, w, t, p);
    }
  }

  // Two open transactions, or an open one and a version, never share a directory.
  lemma PathsApart(s: State, w: nat)
    requires Inv(s) && StoreInv(s) && w in s.open && Numbered(s.open[w].phase)
    ensures forall v :: v in s.open && v != w && Numbered(s.open[v].phase) ==> PathOf(s.open[v]) != PathOf(s.open[w])
    ensures forall k :: k in s.versions ==> VersionPath(k, s.versions[k]) != PathOf(s.open[w])
  {
    var t := s.open[w];
    assert TxOk(s.jobs, t) && NumberOk(s.versions, t);
    forall v | v in s.open && v != w && Numbered(s.open[v].phase) ensures PathOf(s.open[v]) != PathOf(t) {
      var u := s.open[v];
      assert TxOk(s.jobs, u) && !SameNumber(u, t);
      if PathOf(u) == PathOf(t) {
        ArtifactPathsDistinct(u.job.model, u.job.base, u.phase.version, t.job.model, t.job.base, t.phase.version);
      }
    }
    forall k | k in s.versions ensures VersionPath(k, s.versions[k]) != PathOf(t) {
      if VersionPath(k, s.versions[k]) == PathOf(t) {
        ArtifactPathsDistinct(k.0, s.versions[k].base, k.1, t.job.model, t.job.base, t.phase.version);
      }
    }
  }

  lemma AbortStores(c: Limits, s: State, w: nat)
    requires Inv(s) && StoreInv(s) && w in s.open
    ensures StoreInv(Aborting(c, s, w))
  {
    var t := s.open[w];
    var s' := Aborting(c, s, w);
    if t.phase.Kept? && t.phase.stored {
      PathsApart(s, w);
      Abandoned(s.dirs, s.written, s.orphans, s.versions, s.open, w, PathOf(t));
    } else {
      forall p | p in s'.dirs && p !in s'.orphans ensures Owned(s'.versions, s'.open, p) {
        OwnedWithout(s.versions, s.open, w, p);
      }
    }
  }

  lemma Abandoned(dirs: set<string>, written: seq<string>, orphans: set<string>, vs: Versions, open: Txs, w: nat,
      path: string)
    requires Directories(dirs, written, orphans, vs, open) && NotOrphaned(dirs, orphans, vs, open)
    requires w in open && OpenOwns(open[w], path)
    requires forall v :: v in open && v != w && Numbered(open[v].phase) ==> PathOf(open[v]) != path
    requires forall k :: k in vs ==> VersionPath(k, vs[k]) != path
    ensures Directories(dirs, written, orphans + {path}, vs, open - {w})
    ensures NotOrphaned(dirs, orphans + {path}, vs, open - {w})
  {
    forall p | p in dirs && p !in orphans + {path} ensures Owned(vs, open - {w}, p) {
      OwnedWithout(vs, open, w, p);
    }
    assert PathOf(open[w]) in dirs;
  }

  lemma OwnedWithout(vs: Versions, open: Txs, w: nat, p: string)
    requires Owned(vs, open, p) && !(w in open && OpenOwns(open[w], p))
    ensures Owned(vs, open - {w}, p)
  {
    if v :| v in open && OpenOwns(open[v], p) {
      assert OpenOwns((open - {w})[v], p);
    }
  }

  lemma CommitStores(s: State, w: nat)
    requires Inv(s) && StoreInv(s) && w in s.open && Done(s.open[w].phase)
    ensures StoreInv(Committing(s, w))
  {
    var t := s.open[w];
    var s' := Committing(s, w);
    assert TxOk(s.jobs, t) && NumberOk(s.versions, t);
    forall p | p in s'.dirs && p !in s'.orphans ensures Owned(s'.versions, s'.open, p) {
      assert Owned(s.versions, s.open, p);
      OwnedAfterCommit(s, w, p);
    }
  }

  lemma OwnedAfterCommit(s: State, w: nat, p: string)
    requires w in s.open && Done(s.open[w].phase) && Owned(s.versions, s.open, p)
    requires s.open[w].phase.Kept? ==> (s.open[w].job.model, s.open[w].phase.version) !in s.versions
    ensures Owned(Committing(s, w).versions, Committing(s, w).open, p)
  {
    var t := s.open[w];
    var s' := Committing(s, w);
    if k :| k in s.versions && s.versions[k].stored && VersionPath(k, s.versions[k]) == p {
      assert k in s'.versions && s'.versions[k] == s.versions[k];
    } else {
      var v :| v in s.open && OpenOwns(s.open[v], p);
      if v == w {
        var key := (t.job.model, t.phase.version);
        assert key in s'.versions && s'.versions[key].stored && VersionPath(key, s'.versions[key]) == p;
      } else {
        assert OpenOwns(s'.open[v], p);
      }
    }
  }

  lemma ClaimStores(c: Limits, s: State, w: nat, now: int)
    requires StoreInv(s) && Enabled(c, s, Claim(w, now))
    ensures StoreInv(Claiming(c, s, w, now))
  {
    var s' := Claiming(c, s, w, now);
    var t := if w in s'.open then s'.open[w] else Tx("", Job("", ""), s.selected[w].1, Claimed, 0, 0, 0);
    assert s'.open == s.open || (s'.open == s.open[w := t] && t.phase == Claimed);
    forall p | p in s'.dirs && p !in s'.orphans ensures Owned(s'.versions, s'.open, p) {
      OwnedStays(s.versions, s.open, w, t, p);
    }
    assert Directories(s'.dirs, s'.written, s'.orphans, s'.versions, s'.open);
  }

  lemma RunningStores(c: Limits, s: State, l: Label)
    requires StoreInv(s) && Enabled(c, s, l) && (l.Progress? || l.Reload?)
    ensures StoreInv(Apply(c, s, l))
  {
    var s' := Apply(c, s, l);
    forall p | p in s'.dirs && p !in s'.orphans ensures Owned(s'.versions, s'.open, p) {
      OwnedStays(s.versions, s.open, l.w, s'.open[l.w], p);
    }
  }

  lemma StepStores(c: Limits, s: State, l: Label)
    requires Inv(s) && StoreInv(s) && Enabled(c, s, l)
    ensures StoreInv(Apply(c, s, l))
  {
    match l
    case Claim(w, now) => ClaimStores(c, s, w, now);
    case Progress(_) => RunningStores(c, s, l);
    case Reload(_) => RunningStores(c, s, l);
    case Step(w, m) => MoveStores(s, w, m);
    case Commit(w) => CommitStores(s, w);
    case Abort(w) => AbortStores(c, s, w);
    case _ =>
  }

  lemma {:induction false} StoreAlways(c: Limits, states: seq<State>, labels: seq<Label>, i: nat)
    requires IsRun(c, states, labels) && i < |states|
    ensures StoreInv(states[i])
  {
    if i > 0 {
      StoreAlways(c, states, labels, i - 1);
      InvAlways(c, states, labels, i - 1);
      StepStores(c, states[i - 1], labels[i - 1]);
    }
  }

  // ----- Main results, over every run -----

  ghost predicate NumbersAre(vs: Versions, m: string, n: nat) { forall v: nat :: (m, v) in vs <==> 1 <= v <= n }

  function Above(vs: Versions, n: nat): set<(string, nat)> { set k | k in vs && k.1 > n }

  // The committed versions of a model are exactly 1..n, with no gap.
  lemma VersionsAreOneToN(c: Limits, states: seq<State>, labels: seq<Label>, i: nat, m: string)
    requires IsRun(c, states, labels) && i < |states|
    ensures exists n: nat :: NumbersAre(states[i].versions, m, n)
  {
    InvAlways(c, states, labels, i);
    TopExists(states[i].versions, m, 0);
  }

  lemma {:induction false} TopExists(vs: Versions, m: string, n: nat)
    requires Contiguous(vs) && AtOrBelow(vs, m, n)
    ensures exists top: nat :: NumbersAre(vs, m, top)
    decreases Above(vs, n)
  {
    if (m, n + 1) in vs {
      assert (m, n + 1) in Above(vs, n) && (m, n + 1) !in Above(vs, n + 1);
      TopExists(vs, m, n + 1);
    } else {
      forall v: nat ensures (m, v) in vs <==> 1 <= v <= n {
        DownClosed(vs, m, n, if v <= n then v else n);
        assert v > n ==> (m, v) !in vs;
      }
      assert NumbersAre(vs, m, n);
    }
  }

  // ----- Runs and their versions, while no run is claimed that another transaction still has -----

  // A claim wins a run that an open transaction holds already.
  ghost predicate DoubleClaim(c: Limits, s: State, l: Label) {
    && l.Claim? && l.w in s.selected && s.selected[l.w].0 in s.rows
    && ClaimWins(s.rows[s.selected[l.w].0], s.selected[l.w].1, c.maxStaleRetries)
    && exists v :: v in s.open && s.open[v].run == s.selected[l.w].0
  }

  ghost predicate OneHolderEach(c: Limits, states: seq<State>, labels: seq<Label>, n: nat)
    requires n <= |labels| <= |states|
  {
    forall k :: 0 <= k < n ==> !DoubleClaim(c, states[k], labels[k])
  }

  // No two open transactions have the same run, and none of their runs has a version yet.
  ghost predicate RunsApart(open: Txs) {
    forall v, w :: v in open && w in open && v != w ==> open[v].run != open[w].run
  }

  ghost predicate NoneRegistered(vs: Versions, open: Txs) { forall w :: w in open ==> Unregistered(vs, open[w].run) }

  ghost predicate RunInv(s: State) {
    RunsApart(s.open) && NoneRegistered(s.versions, s.open) && RunsOk(s.rows, s.versions, s.overwritten)
  }

  lemma SameRuns(vs: Versions, open: Txs, w: nat, t: Tx)
    requires RunsApart(open) && NoneRegistered(vs, open) && w in open && t.run == open[w].run
    ensures RunsApart(open[w := t]) && NoneRegistered(vs, open[w := t])
  {
  }

  // A run without a version may show anything but COMPLETED.
  lemma RowChanged(rows: Table, vs: Versions, overwritten: set<string>, id: string, row: Run)
    requires RunsOk(rows, vs, overwritten) && Unregistered(vs, id) && row.status != COMPLETED
    ensures RunsOk(rows[id := row], vs, overwritten)
  {
  }

  lemma NotRegistered(rows: Table, vs: Versions, overwritten: set<string>, id: string)
    requires RunsOk(rows, vs, overwritten) && (id in rows ==> rows[id].status !in {COMPLETED, FAILED})
    ensures Unregistered(vs, id)
  {
    forall k | k in vs ensures vs[k].run != id { assert ShowsVersion(rows, overwritten, vs[k].run); }
  }

  lemma RunProgress(c: Limits, s: State, l: Label)
    requires Inv(s) && RunInv(s) && Enabled(c, s, l) && (l.Progress? || l.Reload?)
    ensures RunInv(Apply(c, s, l))
  {
    var t := s.open[l.w];
    assert TxOk(s.jobs, t);
    SameRuns(s.versions, s.open, l.w, Apply(c, s, l).open[l.w]);
    if t.phase.Claimed? {
      RowChanged(s.rows, s.versions, s.overwritten, t.run, t.row);
    } else {
      assert l.Progress? ==> s.rows[t.run := s.rows[t.run]] == s.rows;
    }
  }

  lemma RunClaim(c: Limits, s: State, l: Label)
    requires Inv(s) && RunInv(s) && Enabled(c, s, l) && l.Claim? && !DoubleClaim(c, s, l)
    ensures RunInv(Apply(c, s, l))
  {
    var (id, snap) := s.selected[l.w];
    if ClaimWins(s.rows[id], snap, c.maxStaleRetries) {
      NotRegistered(s.rows, s.versions, s.overwritten, id);
    } else {
      RunRefused(s.rows, s.versions, s.overwritten, id, ClaimedRow(s.rows[id], snap, c.maxStaleRetries, l.now));
    }
  }

  // A refused claim changes the status to FAILED or not at all.
  lemma RunRefused(rows: Table, vs: Versions, overwritten: set<string>, id: string, row: Run)
    requires RunsOk(rows, vs, overwritten) && id in rows && (row.status == rows[id].status || row.status == FAILED)
    ensures var more := if rows[id].status == COMPLETED && row.status == FAILED then overwritten + {id}
              else overwritten;
            RunsOk(rows[id := row], vs, more)
  {
    assert forall k :: k in vs ==> ShowsVersion(rows, overwritten, vs[k].run);
  }

  lemma RegisteredRun(rows: Table, vs: Versions, overwritten: set<string>, key: (string, nat), x: Version, row: Run)
    requires RunsOk(rows, vs, overwritten) && key !in vs && Unregistered(vs, x.run) && row.status == COMPLETED
    ensures RunsOk(rows[x.run := row], vs[key := x], overwritten)
  {
    var rows', vs' := rows[x.run := row], vs[key := x];
    assert vs'[key].run == x.run;
    forall id | id in rows' && rows'[id].status == COMPLETED ensures !Unregistered(vs', id) {
      if id != x.run {
        assert !Unregistered(vs, id);
        var k :| k in vs && vs[k].run == id;
        assert vs'[k].run == id;
      }
    }
  }

  lemma RunCommit(s: State, w: nat)
    requires Inv(s) && RunInv(s) && w in s.open && Done(s.open[w].phase)
    ensures RunInv(Committing(s, w))
  {
    var t := s.open[w];
    assert TxOk(s.jobs, t) && NumberOk(s.versions, t);
    if t.phase.Kept? {
      var x := Version(t.run, t.job.base, t.phase.stored, t.phase.clean);
      RegisteredRun(s.rows, s.versions, s.overwritten, (t.job.model, t.phase.version), x, t.row);
    } else {
      RowChanged(s.rows, s.versions, s.overwritten, t.run, t.row);
    }
  }

  lemma RunOuter(c: Limits, s: State, l: Label)
    requires Inv(s) && RunInv(s) && Enabled(c, s, l) && (l.Create? || l.Mark?)
    ensures RunInv(Apply(c, s, l))
  {
    NotRegistered(s.rows, s.versions, s.overwritten, l.id);
    RowChanged(s.rows, s.versions, s.overwritten, l.id, Apply(c, s, l).rows[l.id]);
  }

  lemma RunStep(c: Limits, s: State, l: Label)
    requires Inv(s) && RunInv(s) && Enabled(c, s, l) && !DoubleClaim(c, s, l)
    ensures RunInv(Apply(c, s, l))
  {
    match l
    case Create(_, _, _) => RunOuter(c, s, l);
    case Mark(_, _) => RunOuter(c, s, l);
    case Claim(_, _) => RunClaim(c, s, l);
    case Progress(_) => RunProgress(c, s, l);
    case Reload(_) => RunProgress(c, s, l);
    case Step(w, m) => SameRuns(s.versions, s.open, w, Moved(s.versions, s.rows, s.open[w], m));
    case Commit(w) => RunCommit(s, w);
    case _ =>
  }

  lemma {:induction false} RunsAlways(c: Limits, states: seq<State>, labels: seq<Label>, i: nat)
    requires IsRun(c, states, labels) && i < |states| && OneHolderEach(c, states, labels, i)
    ensures RunInv(states[i])
  {
    if i > 0 {
      RunsAlways(c, states, labels, i - 1);
      InvAlways(c, states, labels, i - 1);
      RunStep(c, states[i - 1], labels[i - 1]);
    }
  }

  // While no run is claimed that another transaction still holds, completed runs and versions correspond
  // one to one. The only run that has a version and does not show COMPLETED is one whose ending a late
  // over-budget claim has overwritten.
  lemma CompletedRunsAreVersions(c: Limits, states: seq<State>, labels: seq<Label>, i: nat)
    requires IsRun(c, states, labels) && i < |states| && OneHolderEach(c, states, labels, i)
    ensures var s := states[i];
            && (forall j, k :: j in s.versions && k in s.versions && s.versions[j].run == s.versions[k].run ==> j == k)
            && (forall k :: k in s.versions ==> s.versions[k].run in s.rows)
            && (forall id :: id in s.rows && id !in s.overwritten ==>
                  (s.rows[id].status == COMPLETED <==> exists k :: k in s.versions && s.versions[k].run == id))
            && (forall id :: id in s.rows && s.rows[id].status == COMPLETED ==>
                  exists k :: k in s.versions && s.versions[k].run == id)
  {
    RunsAlways(c, states, labels, i);
    var s := states[i];
    forall id | id in s.rows && id !in s.overwritten
      ensures s.rows[id].status == COMPLETED <==> exists k :: k in s.versions && s.versions[k].run == id
    {
      if k :| k in s.versions && s.versions[k].run == id {
        assert ShowsVersion(s.rows, s.overwritten, s.versions[k].run);
      }
    }
  }

  // A transaction that is not done belongs to the worker inside its host's lock.
  ghost predicate LockInv(c: Limits, s: State) {
    forall w :: w in s.open && !Done(s.open[w].phase) ==> Inside(c, s.inside, w)
  }

  lemma {:induction false} LockAlways(c: Limits, states: seq<State>, labels: seq<Label>, i: nat)
    requires IsRun(c, states, labels) && i < |states|
    ensures LockInv(c, states[i])
  {
    if i > 0 {
      LockAlways(c, states, labels, i - 1);
      LockStep(c, states[i - 1], labels[i - 1]);
    }
  }

  lemma LockStep(c: Limits, s: State, l: Label)
    requires LockInv(c, s) && Enabled(c, s, l)
    ensures LockInv(c, Apply(c, s, l))
  {
    var s' := Apply(c, s, l);
    forall w | w in s'.open && !Done(s'.open[w].phase) ensures Inside(c, s'.inside, w) {
      assert l.Claim? || (w in s.open && !Done(s.open[w].phase));
    }
  }

  // With one lock for all workers no run is ever claimed that another transaction still holds.
  lemma OneLockIsEnough(c: Limits, states: seq<State>, labels: seq<Label>, n: nat)
    requires IsRun(c, states, labels) && n <= |labels| && forall v, w :: c.hostOf(v) == c.hostOf(w)
    ensures OneHolderEach(c, states, labels, n)
  {
    forall k | 0 <= k < n ensures !DoubleClaim(c, states[k], labels[k]) {
      LockAlways(c, states, labels, k);
      if labels[k].Claim? { NotHeld(c, states[k], labels[k].w, labels[k].now); }
    }
  }

  lemma NotHeld(c: Limits, s: State, w: nat, now: int)
    requires LockInv(c, s) && Enabled(c, s, Claim(w, now)) && forall v, u :: c.hostOf(v) == c.hostOf(u)
    ensures forall v :: v in s.open ==> s.open[v].run != s.selected[w].0
  {
    forall v | v in s.open ensures s.open[v].run != s.selected[w].0 {
      assert c.hostOf(v) == c.hostOf(w);
      assert Done(s.open[v].phase);
    }
  }

  // No artifact directory is ever written twice, through any rollbacks.
  lemma NeverWrittenTwice(c: Limits, states: seq<State>, labels: seq<Label>, i: nat, a: nat, b: nat)
    requires IsRun(c, states, labels) && i < |states| && a < b < |states[i].written|
    ensures states[i].written[a] != states[i].written[b]
  {
    StoreAlways(c, states, labels, i);
  }

  // The store refuses a freshly numbered version exactly when a rolled-back registration has left its
  // directory behind.
  lemma RefusedExactly(c: Limits, states: seq<State>, labels: seq<Label>, i: nat, w: nat)
    requires IsRun(c, states, labels) && i < |states| && w in states[i].open && states[i].open[w].phase.Inserted?
    ensures PathOf(states[i].open[w]) in states[i].dirs <==> PathOf(states[i].open[w]) in states[i].orphans
  {
    InvAlways(c, states, labels, i);
    StoreAlways(c, states, labels, i);
    PathsApart(states[i], w);
    var p := PathOf(states[i].open[w]);
    assert p in states[i].dirs && p !in states[i].orphans ==> Owned(states[i].versions, states[i].open, p);
  }

  // Every run of the model so far has the base-model slug.
  ghost predicate OneSlug(jobs: Jobs, m: string, base: string) {
    forall id :: id in jobs && jobs[id].model == m ==> Slug(jobs[id].base) == Slug(base)
  }

  // Such a leftover stalls its model for good: while every run of the model has that base-model slug,
  // the number is never committed, and so, as numbers have no gaps, neither is any later one.
  lemma OrphanStalls(c: Limits, states: seq<State>, labels: seq<Label>, i: nat, n: nat, m: string, base: string, v: nat)
    requires IsRun(c, states, labels) && i <= n < |states| && v >= 1
    requires ArtifactPath(m, base, v) in states[i].orphans && (m, v) !in states[i].versions
    requires OneSlug(states[n].jobs, m, base)
    ensures forall u: nat :: u >= v ==> (m, u) !in states[n].versions
  {
    OrphanStays(c, states, labels, i, n, m, base, v);
    InvAlways(c, states, labels, n);
    forall u: nat | u >= v ensures (m, u) !in states[n].versions {
      if (m, u) in states[n].versions { DownClosed(states[n].versions, m, u, v); }
    }
  }

  ghost predicate Stalled(s: State, m: string, base: string, v: nat) {
    ArtifactPath(m, base, v) in s.orphans && (m, v) !in s.versions
  }

  lemma {:induction false} OrphanStays(c: Limits, states: seq<State>, labels: seq<Label>, i: nat, n: nat,
                                       m: string, base: string, v: nat)
    requires IsRun(c, states, labels) && i <= n < |states|
    requires Stalled(states[i], m, base, v) && OneSlug(states[n].jobs, m, base)
    ensures Stalled(states[n], m, base, v)
  {
    if n > i {
      StalledNext(c, states, labels, n - 1, m, base, v);
      OrphanStays(c, states, labels, i, n - 1, m, base, v);
    }
  }

  lemma StalledNext(c: Limits, states: seq<State>, labels: seq<Label>, k: nat, m: string, base: string, v: nat)
    requires IsRun(c, states, labels) && k < |labels| && OneSlug(states[k + 1].jobs, m, base)
    ensures OneSlug(states[k].jobs, m, base)
    ensures Stalled(states[k], m, base, v) ==> Stalled(states[k + 1], m, base, v)
  {
    InvAlways(c, states, labels, k);
    StoreAlways(c, states, labels, k);
    StalledStep(c, states[k], labels[k], m, base, v);
  }

  lemma StalledStep(c: Limits, s: State, l: Label, m: string, base: string, v: nat)
    requires Inv(s) && StoreInv(s) && Enabled(c, s, l) && OneSlug(Apply(c, s, l).jobs, m, base)
    ensures OneSlug(s.jobs, m, base)
    ensures Stalled(s, m, base, v) ==> Stalled(Apply(c, s, l), m, base, v)
  {
    SlugBefore(c, s, l, m, base);
    if Stalled(s, m, base, v) { StillMissing(c, s, l, m, base, v); }
  }

  lemma SlugBefore(c: Limits, s: State, l: Label, m: string, base: string)
    requires Inv(s) && Enabled(c, s, l) && OneSlug(Apply(c, s, l).jobs, m, base)
    ensures OneSlug(s.jobs, m, base)
  {
    JobsGrow(c, s, l);
  }

  lemma JobsGrow(c: Limits, s: State, l: Label)
    requires Inv(s) && Enabled(c, s, l)
    ensures forall id :: id in s.jobs ==> id in Apply(c, s, l).jobs && Apply(c, s, l).jobs[id] == s.jobs[id]
    ensures s.orphans <= Apply(c, s, l).orphans
  {
  }

  lemma StillMissing(c: Limits, s: State, l: Label, m: string, base: string, v: nat)
    requires Inv(s) && StoreInv(s) && Enabled(c, s, l)
    requires ArtifactPath(m, base, v) in s.orphans && (m, v) !in s.versions
    requires OneSlug(s.jobs, m, base)
    ensures (m, v) !in Apply(c, s, l).versions && ArtifactPath(m, base, v) in Apply(c, s, l).orphans
  {
    JobsGrow(c, s, l);
    if l.Commit? && s.open[l.w].phase.Kept? {
      var t := s.open[l.w];
      assert TxOk(s.jobs, t);
      assert PathOf(t) !in s.orphans;
    }
  }

  // A registration that runs out of attempts was beaten: apart from the attempts lost to a busy
  // database, each one fell to another version of the model committed since it began.
  lemma GivingUpMeansBeaten(c: Limits, states: seq<State>, labels: seq<Label>, i: nat, w: nat)
    requires IsRun(c, states, labels) && i < |states| && w in states[i].open
    requires states[i].open[w].phase == Completing
    requires states[i].open[w].conflicts + states[i].open[w].busys >= MAX_VERSION_RETRIES
    ensures var t := states[i].open[w];
            forall u :: t.base < u <= t.base + MAX_VERSION_RETRIES - t.busys ==> (t.job.model, u) in states[i].versions
  {
    InvAlways(c, states, labels, i);
    var t := states[i].open[w];
    assert NumberOk(states[i].versions, t);
    forall u | t.base < u <= t.base + MAX_VERSION_RETRIES - t.busys ensures (t.job.model, u) in states[i].versions {
      DownClosed(states[i].versions, t.job.model, t.base + t.conflicts, u);
    }
  }

  // ----- Runs that reach the rare states -----

  ghost predicate Reaches(c: Limits, s: State) {
    exists states: seq<State>, labels: seq<Label> :: IsRun(c, states, labels) && states[|labels|] == s
  }

  lemma ExtendRun(c: Limits, states: seq<State>, labels: seq<Label>, l: Label)
    requires IsRun(c, states, labels) && Enabled(c, states[|labels|], l)
    ensures IsRun(c, states + [Apply(c, states[|labels|], l)], labels + [l])
  {
    var states', labels' := states + [Apply(c, states[|labels|], l)], labels + [l];
    forall i | 0 <= i < |labels'|
      ensures Enabled(c, states'[i], labels'[i]) && states'[i + 1] == Apply(c, states'[i], labels'[i])
    {
      if i < |labels| { assert states'[i + 1] == states[i + 1]; }
    }
  }

  lemma Extend(c: Limits, s: State, l: Label) returns (s': State)
    requires Reaches(c, s) && Enabled(c, s, l)
    ensures Reaches(c, s') && s' == Apply(c, s, l)
  {
    s' := Apply(c, s, l);
    var states: seq<State>, labels: seq<Label> :| IsRun(c, states, labels) && states[|labels|] == s;
    ExtendRun(c, states, labels, l);
    assert (states + [s'])[|labels + [l]|] == s';
  }

  lemma InitReached(c: Limits)
    ensures Reaches(c, INIT)
  {
    var none: seq<Label> := [];
    assert IsRun(c, [INIT], none) && [INIT][|none|] == INIT;
  }

  lemma ReachedOk(c: Limits, s: State)
    requires Reaches(c, s)
    ensures Inv(s) && StoreInv(s)
  {
    var states: seq<State>, labels: seq<Label> :| IsRun(c, states, labels) && states[|labels|] == s;
    InvAlways(c, states, labels, |labels|);
    StoreAlways(c, states, labels, |labels|);
  }

  // A new run, claimed at once by worker w of a free host.
  lemma Claims(c: Limits, s: State, w: nat, id: string, job: Job, run: Run) returns (s': State)
    requires Reaches(c, s) && id !in s.rows && run.status == PENDING && '/' !in job.model
    requires c.hostOf(w) !in s.inside && w !in s.open && forall v :: v in s.open ==> s.open[v].run != id
    ensures Reaches(c, s') && s'.open.Keys == s.open.Keys + {w} && forall v :: v in s.open ==> s'.open[v] == s.open[v]
    ensures s'.open[w].run == id && s'.open[w].job == job && s'.open[w].phase == Claimed
    ensures s'.open[w].conflicts == s'.open[w].busys == 0
    ensures s'.inside == s.inside[c.hostOf(w) := w] && s'.rows == s.rows[id := run] && s'.jobs == s.jobs[id := job]
    ensures s'.versions == s.versions && s'.orphans == s.orphans && s'.dirs == s.dirs
  {
    s' := Extend(c, s, Create(id, job, run));
    s' := Extend(c, s', Select(w, id));
    s' := ClaimsSelected(c, s', w);
  }

  lemma ClaimsSelected(c: Limits, s: State, w: nat) returns (s': State)
    requires Reaches(c, s) && w in s.selected && c.hostOf(w) !in s.inside && w !in s.open
    requires var (id, snap) := s.selected[w];
             id in s.rows && id in s.jobs && RowFree(s, id) && ClaimWins(s.rows[id], snap, c.maxStaleRetries)
    ensures Reaches(c, s') && s'.open.Keys == s.open.Keys + {w} && forall v :: v in s.open ==> s'.open[v] == s.open[v]
    ensures s'.open[w].run == s.selected[w].0 && s'.open[w].job == s.jobs[s.selected[w].0]
              && s'.open[w].phase == Claimed
    ensures s'.open[w].conflicts == s'.open[w].busys == 0
    ensures s'.inside == s.inside[c.hostOf(w) := w] && s'.rows == s.rows && s'.jobs == s.jobs
    ensures s'.versions == s.versions && s'.orphans == s.orphans && s'.dirs == s.dirs
    ensures s'.selected == s.selected - {w}
  {
    s' := Extend(c, s, Enter(w));
    s' := Extend(c, s', Claim(w, 0));
  }

  // Worker w may complete and register as version n + 1 of its model.
  ghost predicate MayRegister(c: Limits, s: State, w: nat, n: nat) {
    && w in s.open && s.orphans == {} && Running(s.open[w]) && RowFreeFor(s, w, s.open[w].run)
    && s.open[w].conflicts + s.open[w].busys < MAX_VERSION_RETRIES
    && IsLatest(s.versions, s.open[w].job.model, n)
    && forall v :: v in s.open && v != w ==> !Numbered(s.open[v].phase)
  }

  // The same state but for worker w's transaction.
  ghost predicate SameBut(s: State, s': State, w: nat) {
    && w in s.open && s'.open == s.open[w := if w in s'.open then s'.open[w] else s.open[w]]
    && s'.rows == s.rows && s'.jobs == s.jobs && s'.versions == s.versions && s'.inside == s.inside
    && s'.orphans == s.orphans && s'.selected == s.selected
    && w in s'.open && s'.open[w].run == s.open[w].run && s'.open[w].job == s.open[w].job
  }

  // One of the moves that create no directory.
  lemma Moves(c: Limits, s: State, w: nat, m: Move) returns (s': State)
    requires Reaches(c, s) && Enabled(c, s, Step(w, m)) && !Creates(m)
    ensures Reaches(c, s') && s'.open == s.open[w := Moved(s.versions, s.rows, s.open[w], m)] && SameBut(s, s', w)
    ensures s'.dirs == s.dirs
  {
    SteppingFrame(s, w, m);
    s' := Extend(c, s, Step(w, m));
  }

  lemma Numbers(c: Limits, s: State, w: nat, n: nat) returns (s': State)
    requires Reaches(c, s) && MayRegister(c, s, w, n)
    ensures Reaches(c, s') && SameBut(s, s', w) && s'.open[w].phase == Inserted(n + 1)
  {
    var s1 := Moves(c, s, w, Complete(0, n));
    assert s1.open[w].phase == Completing && s1.open[w].job == s.open[w].job;
    var s2 := Moves(c, s1, w, Look(n));
    s' := Inserts(c, s2, w, n);
  }

  lemma Inserts(c: Limits, s: State, w: nat, n: nat) returns (s': State)
    requires Reaches(c, s) && w in s.open && s.open[w].phase == Looked(n)
               && IsLatest(s.versions, s.open[w].job.model, n)
    requires forall v :: v in s.open && v != w ==> !Numbered(s.open[v].phase)
    ensures Reaches(c, s') && SameBut(s, s', w) && s'.open[w].phase == Inserted(n + 1)
  {
    s' := Moves(c, s, w, Insert);
  }

  lemma Stores(c: Limits, s: State, w: nat, n: nat) returns (s': State)
    requires Reaches(c, s) && MayRegister(c, s, w, n)
    ensures Reaches(c, s') && SameBut(s, s', w) && s'.open[w].phase == Kept(n + 1, true, true)
  {
    var s1 := Numbers(c, s, w, n);
    FreshPath(c, s1, w);
    s' := Extend(c, s1, Step(w, Store));
  }

  lemma FreshPath(c: Limits, s: State, w: nat)
    requires Reaches(c, s) && w in s.open && s.open[w].phase.Inserted? && s.orphans == {}
    ensures PathOf(s.open[w]) !in s.dirs
  {
    var states: seq<State>, labels: seq<Label> :| IsRun(c, states, labels) && states[|labels|] == s;
    RefusedExactly(c, states, labels, |labels|, w);
  }

  lemma Registers(c: Limits, s: State, w: nat, n: nat) returns (s': State)
    requires Reaches(c, s) && MayRegister(c, s, w, n) && Inside(c, s.inside, w)
    ensures Reaches(c, s') && s'.open == s.open - {w} && s'.inside == s.inside - {c.hostOf(w)}
    ensures s'.versions
              == s.versions[(s.open[w].job.model, n + 1) := Version(s.open[w].run, s.open[w].job.base, true, true)]
    ensures s'.rows.Keys == s.rows.Keys + {s.open[w].run} && s'.jobs == s.jobs && s'.orphans == {}
              && s'.selected == s.selected
  {
    s' := Stores(c, s, w, n);
    s' := Extend(c, s', Leave(w));
    s' := Extend(c, s', Commit(w));
  }

  // The leftover does arise: one run is claimed and registered, its directory is stored, and the
  // transaction is rolled back before it commits.
  lemma OrphanHappens(c: Limits, id: string, job: Job, run: Run)
    requires run.status == PENDING && '/' !in job.model
    ensures exists s :: Reaches(c, s) && ArtifactPath(job.model, job.base, 1) in s.orphans && s.versions == map[]
                        && OneSlug(s.jobs, job.model, job.base)
  {
    var s := OrphanRun(c, id, job, run);
  }

  lemma OrphanRun(c: Limits, id: string, job: Job, run: Run) returns (s: State)
    requires run.status == PENDING && '/' !in job.model
    ensures Reaches(c, s) && ArtifactPath(job.model, job.base, 1) in s.orphans
    ensures s.versions == map[] && s.jobs == map[id := job]
  {
    var s0 := ClaimsAlone(c, 1, id, job, run);
    var s1 := Stores(c, s0, 1, 0);
    s := Abandons(c, s1, 1);
  }

  // Worker u alone has claimed the only run there is.
  lemma ClaimsAlone(c: Limits, u: nat, id: string, job: Job, run: Run) returns (s: State)
    requires run.status == PENDING && '/' !in job.model
    ensures Reaches(c, s) && MayRegister(c, s, u, 0) && s.open.Keys == {u} && s.open[u].run == id
              && s.open[u].job == job
    ensures s.open[u].conflicts == s.open[u].busys == 0
    ensures s.jobs == map[id := job] && s.rows.Keys == {id} && s.versions == map[] && s.inside == map[c.hostOf(u) := u]
  {
    InitReached(c);
    s := Claims(c, INIT, u, id, job, run);
  }

  lemma Abandons(c: Limits, s: State, w: nat) returns (s': State)
    requires Reaches(c, s) && w in s.open && s.open[w].phase.Kept? && s.open[w].phase.stored
    ensures Reaches(c, s') && PathOf(s.open[w]) in s'.orphans && s'.versions == s.versions && s'.jobs == s.jobs
  {
    s' := Extend(c, s, Abort(w));
  }

  // Worker u is between two attempts, k of them lost, and the model has the k versions of its rivals.
  ghost predicate LostSoFar(c: Limits, u: nat, s: State, m: string, k: nat) {
    && s.open.Keys == {u} && s.inside == map[c.hostOf(u) := u] && s.orphans == {} && IsLatest(s.versions, m, k)
    && s.open[u].job.model == m && s.open[u].phase == Completing && s.open[u].base == 0
    && s.open[u].conflicts == k && s.open[u].busys == 0 && s.open[u].run == ""
    && forall id :: id in s.rows ==> |id| <= k
  }

  lemma FirstCompletes(c: Limits, u: nat, job: Job, run: Run) returns (s: State)
    requires run.status == PENDING && '/' !in job.model
    ensures Reaches(c, s) && LostSoFar(c, u, s, job.model, 0)
  {
    s := ClaimsAlone(c, u, "", job, run);
    s := Moves(c, s, u, Complete(0, 0));
  }

  // Between worker u's reading and its insert, worker w of another host claims and registers a whole run.
  lemma LosesOnce(c: Limits, u: nat, w: nat, s: State, job: Job, run: Run, k: nat) returns (s': State)
    requires Reaches(c, s) && LostSoFar(c, u, s, job.model, k) && k < MAX_VERSION_RETRIES
    requires run.status == PENDING && '/' !in job.model && c.hostOf(u) != c.hostOf(w)
    ensures Reaches(c, s') && LostSoFar(c, u, s', job.model, k + 1)
  {
    var s1 := LooksAgain(c, u, s, job.model, k);
    var s2 := RivalRegisters(c, u, w, s1, job, run, k);
    s' := InsertFails(c, u, s2, job.model, k);
    assert s1.open[u].base == s.open[u].base;
  }

  lemma LooksAgain(c: Limits, u: nat, s: State, m: string, k: nat) returns (s': State)
    requires Reaches(c, s) && LostSoFar(c, u, s, m, k) && k < MAX_VERSION_RETRIES
    ensures Reaches(c, s') && s'.open == map[u := s.open[u].(phase := Looked(k))]
    ensures s'.rows == s.rows && s'.versions == s.versions && s'.inside == s.inside && s'.orphans == s.orphans
  {
    s' := Extend(c, s, Step(u, Look(k)));
    SteppingFrame(s, u, Look(k));
  }

  lemma InsertFails(c: Limits, u: nat, s: State, m: string, k: nat) returns (s': State)
    requires Reaches(c, s) && s.open.Keys == {u} && s.open[u].phase == Looked(k) && s.open[u].job.model == m
    requires (m, k + 1) in s.versions
    ensures Reaches(c, s') && s'.open == map[u := s.open[u].(phase := Completing, conflicts := s.open[u].conflicts + 1)]
    ensures s'.rows == s.rows && s'.versions == s.versions && s'.inside == s.inside && s'.orphans == s.orphans
  {
    s' := Extend(c, s, Step(u, Insert));
    SteppingFrame(s, u, Insert);
  }

  lemma RivalRegisters(c: Limits, u: nat, w: nat, s: State, job: Job, run: Run, k: nat) returns (s': State)
    requires Reaches(c, s) && s.open.Keys == {u} && s.open[u].phase.Looked? && s.open[u].run == ""
    requires s.inside == map[c.hostOf(u) := u] && s.orphans == {} && IsLatest(s.versions, job.model, k)
    requires forall id :: id in s.rows ==> |id| <= k
    requires run.status == PENDING && '/' !in job.model && c.hostOf(u) != c.hostOf(w)
    ensures Reaches(c, s') && s'.open == s.open && s'.inside == s.inside && s'.orphans == {}
    ensures (job.model, k + 1) in s'.versions && IsLatest(s'.versions, job.model, k + 1)
    ensures forall id :: id in s'.rows ==> |id| <= k + 1
  {
    var id := LongId(s.rows, k);
    var s1 := RivalClaims(c, u, w, s, id, job, run, k);
    s' := Registers(c, s1, w, k);
    NextLatest(s.versions, job.model, k, s'.versions[(job.model, k + 1)]);
  }

  lemma RivalClaims(c: Limits, u: nat, w: nat, s: State, id: string, job: Job, run: Run, k: nat) returns (s': State)
    requires Reaches(c, s) && s.open.Keys == {u} && s.open[u].phase.Looked? && s.open[u].run != id && id !in s.rows
    requires s.inside == map[c.hostOf(u) := u] && s.orphans == {} && IsLatest(s.versions, job.model, k)
    requires run.status == PENDING && '/' !in job.model && c.hostOf(u) != c.hostOf(w)
    ensures Reaches(c, s') && MayRegister(c, s', w, k) && Inside(c, s'.inside, w)
    ensures s'.open[w].job == job && s'.open[w].run == id && s'.rows.Keys == s.rows.Keys + {id}
    ensures s'.open - {w} == s.open && s'.inside - {c.hostOf(w)} == s.inside && s'.versions == s.versions
  {
    s' := Claims(c, s, w, id, job, run);
  }

  lemma LongId(rows: Table, k: nat) returns (id: string)
    requires forall i :: i in rows ==> |i| <= k
    ensures |id| == k + 1 && id !in rows
  {
    id := seq(k + 1, _ => 'x');
  }

  lemma NextLatest(vs: Versions, m: string, n: nat, x: Version)
    requires IsLatest(vs, m, n)
    ensures IsLatest(vs[(m, n + 1) := x], m, n + 1)
  {
  }

  lemma {:induction false} Loses(c: Limits, u: nat, w: nat, job: Job, run: Run, k: nat) returns (s: State)
    requires run.status == PENDING && '/' !in job.model && c.hostOf(u) != c.hostOf(w) && k <= MAX_VERSION_RETRIES
    ensures Reaches(c, s) && LostSoFar(c, u, s, job.model, k)
  {
    if k == 0 {
      s := FirstCompletes(c, u, job, run);
    } else {
      s := Loses(c, u, w, job, run, k - 1);
      s := LosesOnce(c, u, w, s, job, run, k - 1);
    }
  }

  // With a worker on another host, a registration can indeed lose every one of its attempts to other versions.
  lemma BeatenEveryTime(c: Limits, u: nat, w: nat, job: Job, run: Run)
    requires run.status == PENDING && '/' !in job.model && c.hostOf(u) != c.hostOf(w)
    ensures exists s :: Reaches(c, s) && u in s.open && s.open[u].phase == Completing
                        && s.open[u].conflicts == MAX_VERSION_RETRIES && s.open[u].busys == 0
  {
    var s := Loses(c, u, w, job, run, MAX_VERSION_RETRIES);
  }

  // And workers of two hosts can end up with two versions of one run: both select it, the first goes stale
  // while it trains, the second claims, and both register.
  lemma RunRegisteredTwice(c: Limits, u: nat, w: nat, id: string, job: Job, run: Run)
    requires run.status == PENDING && '/' !in job.model && c.hostOf(u) != c.hostOf(w)
    ensures exists s, j, k :: Reaches(c, s) && j in s.versions && k in s.versions && j != k
                              && s.versions[j].run == s.versions[k].run == id
  {
    var s := TwoHolders(c, u, w, id, job, run);
    s := Registers(c, s, u, 0);
    s := Registers(c, s, w, 1);
    assert (job.model, 1) in s.versions && (job.model, 2) in s.versions;
  }

  // Worker w's claim is committed by its first progress, and its copy loaded again.
  lemma Trains(c: Limits, s: State, w: nat) returns (s': State)
    requires Reaches(c, s) && w in s.open && s.open[w].phase == Claimed && RowFreeFor(s, w, s.open[w].run)
    ensures Reaches(c, s') && s'.open == s.open[w := s.open[w].(phase := Training(Some(s.open[w].row)))]
    ensures s'.rows == s.rows[s.open[w].run := s.open[w].row] && s.open[w].row.status == RUNNING
    ensures s'.jobs == s.jobs && s'.versions == s.versions && s'.inside == s.inside
    ensures s'.orphans == s.orphans && s'.selected == s.selected
  {
    ReachedOk(c, s);
    assert TxOk(s.jobs, s.open[w]);
    s' := Extend(c, s, Progress(w));
    s' := Extend(c, s', Reload(w));
  }

  lemma BothSelect(c: Limits, u: nat, w: nat, id: string, job: Job, run: Run) returns (s: State)
    requires run.status == PENDING && '/' !in job.model && u != w
    ensures Reaches(c, s)
    ensures s == INIT.(rows := map[id := run], jobs := map[id := job], selected := map[u := (id, run), w := (id, run)])
  {
    InitReached(c);
    s := Extend(c, INIT, Create(id, job, run));
    s := Extend(c, s, Select(u, id));
    s := Extend(c, s, Select(w, id));
  }

  lemma FirstTrains(c: Limits, u: nat, w: nat, id: string, job: Job, run: Run) returns (s: State)
    requires run.status == PENDING && '/' !in job.model && u != w
    ensures Reaches(c, s) && s.open.Keys == {u} && s.open[u].run == id && s.open[u].job == job && Running(s.open[u])
    ensures s.open[u].phase.Training? && s.open[u].conflicts == s.open[u].busys == 0
    ensures s.rows.Keys == s.jobs.Keys == {id} && s.rows[id].status == RUNNING && s.jobs[id] == job
    ensures s.selected == map[w := (id, run)] && s.inside == map[c.hostOf(u) := u] && s.versions == map[]
              && s.orphans == {}
  {
    s := BothSelect(c, u, w, id, job, run);
    s := ClaimsSelected(c, s, u);
    s := Trains(c, s, u);
  }

  lemma TwoHolders(c: Limits, u: nat, w: nat, id: string, job: Job, run: Run) returns (s: State)
    requires run.status == PENDING && '/' !in job.model && c.hostOf(u) != c.hostOf(w)
    ensures Reaches(c, s) && s.open.Keys == {u, w} && s.inside == map[c.hostOf(u) := u, c.hostOf(w) := w]
    ensures s.versions == map[] && s.orphans == {}
    ensures forall v :: v in s.open ==> s.open[v].run == id && s.open[v].job == job && Running(s.open[v])
                                         && s.open[v].phase.Training? && s.open[v].conflicts == s.open[v].busys == 0
  {
    s := FirstTrains(c, u, w, id, job, run);
    var late := (if s.rows[id].heartbeatAt.Some? then s.rows[id].heartbeatAt.value else 0) + c.staleThreshold + 1;
    s := Extend(c, s, Mark(id, late));
    s := ClaimsSelected(c, s, w);
    s := Trains(c, s, w);
  }

  ghost predicate OneVersionEach(s: State) {
    forall j, k :: j in s.versions && k in s.versions && s.versions[j].run == s.versions[k].run ==> j == k
  }

  // So every run keeps to one version in all that can happen exactly when one host has all the workers.
  lemma OneVersionEachExactly(c: Limits)
    ensures (forall s :: Reaches(c, s) ==> OneVersionEach(s)) <==> (forall u, w :: c.hostOf(u) == c.hostOf(w))
  {
    if forall u, w :: c.hostOf(u) == c.hostOf(w) {
      forall s | Reaches(c, s) ensures OneVersionEach(s) { OneHostOneVersion(c, s); }
    }
    if u, w :| c.hostOf(u) != c.hostOf(w) {
      RunRegisteredTwice(c, u, w, "", Job("", ""), Run(PENDING, 0, 0, 0, None, None, None));
    }
  }

  lemma OneHostOneVersion(c: Limits, s: State)
    requires Reaches(c, s) && forall u, w :: c.hostOf(u) == c.hostOf(w)
    ensures OneVersionEach(s)
  {
    var states: seq<State>, labels: seq<Label> :| IsRun(c, states, labels) && states[|labels|] == s;
    OneLockIsEnough(c, states, labels, |labels|);
    CompletedRunsAreVersions(c, states, labels, |labels|);
  }
}
