/** The release ladder of a model version: statuses, the evaluation gate, what each operation demands of
    the copy of the row it loaded, and the status updates it then sends, in order. */
module Releases {
  import opened Wrappers

  datatype Status = REGISTERED | EVALUATED | PROMOTED | REJECTED | STAGING | VALIDATED | PRODUCTION | DEPLOYED
                  | RETIRED | ARCHIVED

  datatype Loss = Loss(current: real, previous: Option<real>)

  datatype Comparison = Comparison(wins: int, losses: int)

  // The three evaluation signals, and the eval set they were measured against: its id and its version are
  // two columns, each set on its own.
  datatype Signals = Signals(loss: Option<Loss>, qualitative: Option<Comparison>, regressions: Option<nat>,
                             evalSetId: Option<string>, evalSetVersion: Option<nat>)

  datatype Settings = Settings(requireEvalSet: bool, requireMajority: bool, requireNoRegression: bool,
      requireLossNotWorse: bool)

  datatype Reason = NoEvalSet | NoMajority | RegressionsFound | LossWorse

  // A row of `model_versions`. Row ids identify versions; `model` and `version` never change.
  datatype Row = Row(model: string, version: nat, base: string, status: Status, signals: Signals)

  datatype Environment = DefaultEnvironment | ProductionEnvironment | StagingEnvironment

  datatype Op = Decide(promote: bool)
              | Deploy(environment: Environment)
              | Stage(ladder: bool)
              | ValidateStaging
              | PromoteToProduction
              | Rollback
              | Evaluate(update: Signals)
              | Archive
              | Unarchive(to: Status)

  datatype Kind = PROMOTED_DECISION | REJECTED_DECISION | STAGING_DECISION | VALIDATED_DECISION | PRODUCTION_DECISION
                | ROLLBACK_DECISION

  // `fromStatus`: the status the decision was taken from; `rollbackOf`: the version rolled back to.
  datatype Decision = Decision(subject: nat, kind: Kind, fromStatus: Status, evidence: Option<Signals>,
      rollbackOf: Option<nat>)

  datatype Write = Write(id: nat, status: Option<Status>)

  predicate Complete(s: Signals) { s.loss.Some? && s.qualitative.Some? && s.regressions.Some? }

  function Merge(held: Signals, update: Signals): Signals {
    Signals(if update.loss.Some? then update.loss else held.loss,
            if update.qualitative.Some? then update.qualitative else held.qualitative,
            if update.regressions.Some? then update.regressions else held.regressions,
            if update.evalSetId.Some? then update.evalSetId else held.evalSetId,
            if update.evalSetVersion.Some? then update.evalSetVersion else held.evalSetVersion)
  }

  function GateReasons(cfg: Settings, s: Signals): seq<Reason> {
    (if cfg.requireEvalSet && (s.evalSetId == None || s.evalSetVersion == None) then [NoEvalSet] else [])
    + (if cfg.requireMajority && s.qualitative.Some? && s.qualitative.value.wins <= s.qualitative.value.losses
       then [NoMajority] else [])
    + (if cfg.requireNoRegression && s.regressions.Some? && s.regressions.value > 0 then [RegressionsFound] else [])
    + (if cfg.requireLossNotWorse && s.loss.Some? && s.loss.value.previous.Some?
      && s.loss.value.current > s.loss.value.previous.value
       then [LossWorse] else [])
  }

  const ROLLBACK_TARGETS: set<Status> := {PROMOTED, RETIRED, STAGING, VALIDATED, PRODUCTION}

  // The guards of the routers and services, on the row as loaded.
  predicate Allowed(cfg: Settings, op: Op, seen: Row) {
    match op
    case Decide(promote) => seen.status == EVALUATED && (promote ==> GateReasons(cfg, seen.signals) == [])
    case Deploy(environment) =>
      (match environment
       case DefaultEnvironment => seen.status == PROMOTED
       case ProductionEnvironment => seen.status in {VALIDATED, PRODUCTION, PROMOTED}
       case StagingEnvironment => false)
    case Stage(ladder) => seen.status == EVALUATED || (!ladder && seen.status == STAGING)
    case ValidateStaging => seen.status == STAGING
    case PromoteToProduction => seen.status in {VALIDATED, PROMOTED}
    case Rollback => seen.status in ROLLBACK_TARGETS
    case Evaluate(_) => true
    case Archive => seen.status in {PROMOTED, RETIRED}
    case Unarchive(to) => seen.status == ARCHIVED && to in {PROMOTED, REJECTED, RETIRED}
  }

  predicate MovesPointer(op: Op) { op.Deploy? || op.Stage? || op.PromoteToProduction? || op.Rollback? }

  // The status updates, one flush each. `previous` is what the query for the DEPLOYED version found.
  function Plan(op: Op, target: nat, seen: Row, previous: Option<nat>): seq<Write> {
    var retire := if previous.Some? then [Write(previous.value, Some(RETIRED))] else [];
    match op
    case Decide(promote) => [Write(target, Some(if promote then PROMOTED else REJECTED))]
    case Deploy(_) => retire + [Write(target, Some(DEPLOYED))]
    case PromoteToProduction => retire + [Write(target, Some(DEPLOYED))]
    case Rollback => retire + [Write(target, Some(DEPLOYED))]
    case Stage(_) =>
      retire + [Write(target, Some(DEPLOYED)), Write(target, Some(STAGING))]
      + (if previous.Some? then [Write(previous.value, Some(DEPLOYED))] else [])
    case ValidateStaging => [Write(target, Some(VALIDATED))]
    case Evaluate(update) =>
      [Write(target,
        if Complete(Merge(seen.signals, update)) && seen.status == REGISTERED then Some(EVALUATED) else None)]
    case Archive => [Write(target, Some(ARCHIVED))]
    case Unarchive(to) => [Write(target, Some(to))]
  }

  function DecisionsOf(op: Op, target: nat, seen: Row, previous: Option<nat>): seq<Decision> {
    match op
    case Decide(promote) =>
      [Decision(target, if promote then PROMOTED_DECISION else REJECTED_DECISION, seen.status, Some(seen.signals),
        None)]
    case Stage(ladder) => if ladder then [Decision(target, STAGING_DECISION, seen.status, None, None)] else []
    case ValidateStaging => [Decision(target, VALIDATED_DECISION, seen.status, Some(seen.signals), None)]
    case PromoteToProduction => [Decision(target, PRODUCTION_DECISION, seen.status, None, None)]
    case Rollback =>
      [Decision(if previous.Some? then previous.value else target, ROLLBACK_DECISION, seen.status, None, Some(target))]
    case _ => []
  }

  // The statuses that only an approved version may hold.
  predicate Approved(s: Status) { s in {PROMOTED, VALIDATED, DEPLOYED, RETIRED, ARCHIVED} }

  // What approves a version: a PROMOTED decision on evidence that cleared the gate, a VALIDATED
  // decision taken from STAGING, or having been the target of a rollback.
  predicate Approves(cfg: Settings, d: Decision, id: nat) {
    || (d.kind == PROMOTED_DECISION && d.subject == id && d.fromStatus == EVALUATED && d.evidence.Some?
        && GateReasons(cfg, d.evidence.value) == [])
    || (d.kind == VALIDATED_DECISION && d.subject == id && d.fromStatus == STAGING)
    || (d.kind == ROLLBACK_DECISION && d.rollbackOf == Some(id))
  }

  // Evidence clears the gate exactly when it names an eval set by id and version, does not fail the
  // comparison, shows no regression and no worse loss - each as far as the settings ask for it and the
  // signal is there.
  lemma GateClearsExactly(cfg: Settings, s: Signals)
    ensures GateReasons(cfg, s) == [] <==>
              && (cfg.requireEvalSet ==> s.evalSetId.Some? && s.evalSetVersion.Some?)
              && (cfg.requireMajority && s.qualitative.Some? ==> s.qualitative.value.wins > s.qualitative.value.losses)
              && (cfg.requireNoRegression && s.regressions.Some? ==> s.regressions.value == 0)
              && (cfg.requireLossNotWorse && s.loss.Some? && s.loss.value.previous.Some? ==>
                    s.loss.value.current <= s.loss.value.previous.value)
  {
  }
}

/** Release transactions that overlap in any way: each works on the copy it loaded, sends its updates one
    flush at a time, and may roll back at any point. Updated rows stay locked until the transaction ends;
    the partial unique index admits one DEPLOYED row per model and makes a flush wait for any other
    transaction that has changed which row of the model that is. */
module ReleaseProtocol {
  import opened Wrappers
  import opened Releases

  // `located`: the query for `previous` has run; `sent`: how many updates have been flushed.
  datatype Tx = Tx(op: Op, target: nat, seen: Row, located: bool, previous: Option<nat>, sent: nat)

  type Rows = map<nat, Row>

  type Txs = map<nat, Tx>

  datatype State = State(rows: Rows, open: Txs, decisions: seq<Decision>)

  datatype Label = Register(id: nat, row: Row)
                 | Begin(t: nat, op: Op, target: nat)
                 | Locate(t: nat, previous: Option<nat>)
                 | Send(t: nat)
                 | Conflict(t: nat)
                 | Commit(t: nat)
                 | Abort(t: nat)

  const INIT := State(map[], map[], [])

  function PlanOf(tx: Tx): seq<Write> { Plan(tx.op, tx.target, tx.seen, tx.previous) }

  // The rows a transaction has flushed, with the last status it set, if any.
  type FlushedRows = map<nat, Option<Status>>

  // The rows the first n writes have set, with the last status each.
  function Effect(ws: seq<Write>, n: nat): (o: FlushedRows)
    requires n <= |ws|
  {
    if n == 0 then map[]
    else Flushed(Effect(ws, n - 1), ws[n - 1])
  }

  function Overlay(tx: Tx): FlushedRows { if tx.sent <= |PlanOf(tx)| then Effect(PlanOf(tx), tx.sent) else map[] }

  // The status of a row as the transaction sees it after its flushes.
  function Shown(rows: Rows, tx: Tx, id: nat): Status
    requires id in rows
  {
    if id in Overlay(tx) && Overlay(tx)[id].Some? then Overlay(tx)[id].value else rows[id].status
  }

  predicate DeployedIn(rows: Rows, id: nat, m: string) {
    id in rows && rows[id].model == m && rows[id].status == DEPLOYED
  }

  // The query for the DEPLOYED version of the model other than the target.
  ghost predicate IsPrevious(rows: Rows, tx: Tx, previous: Option<nat>) {
    match previous
    case Some(p) => p != tx.target && DeployedIn(rows, p, tx.seen.model)
    case None => forall id :: DeployedIn(rows, id, tx.seen.model) ==> id == tx.target
  }

  ghost predicate RowFree(open: Txs, t: nat, id: nat) { forall u :: u in open && u != t ==> id !in Overlay(open[u]) }

  // The transaction has changed, or sets, which row of the model is DEPLOYED.
  ghost predicate Touches(rows: Rows, tx: Tx, m: string) {
    exists id :: id in Overlay(tx) && id in rows && rows[id].model == m
                 && (Overlay(tx)[id] == Some(DEPLOYED) || rows[id].status == DEPLOYED)
  }

  ghost predicate KeyFree(rows: Rows, open: Txs, t: nat, m: string) {
    forall u :: u in open && u != t ==> !Touches(rows, open[u], m)
  }

  ghost predicate Ready(s: State, t: nat) {
    && t in s.open && s.open[t].sent < |PlanOf(s.open[t])| && (MovesPointer(s.open[t].op) ==> s.open[t].located)
    && (var w := PlanOf(s.open[t])[s.open[t].sent];
        && w.id in s.rows && RowFree(s.open, t, w.id)
        && (w.status == Some(DEPLOYED) ==> KeyFree(s.rows, s.open, t, s.rows[w.id].model)))
  }

  // The flush breaks the unique index: another row of the model shows DEPLOYED.
  ghost predicate Breaks(s: State, t: nat)
    requires Ready(s, t)
  {
    var w := PlanOf(s.open[t])[s.open[t].sent];
    w.status == Some(DEPLOYED)
    && exists id ::
         id in s.rows && id != w.id && s.rows[id].model == s.rows[w.id].model
           && Shown(s.rows, s.open[t], id) == DEPLOYED
  }

  ghost predicate Enabled(cfg: Settings, s: State, l: Label) {
    match l
    case Register(id, row) => id !in s.rows && row.status == REGISTERED
    case Begin(t, op, target) => t !in s.open && target in s.rows && Allowed(cfg, op, s.rows[target])
    case Locate(t, previous) =>
      t in s.open && MovesPointer(s.open[t].op) && !s.open[t].located && IsPrevious(s.rows, s.open[t], previous)
    case Send(t) => Ready(s, t) && !Breaks(s, t)
    case Conflict(t) => Ready(s, t) && Breaks(s, t)
    case Commit(t) => t in s.open && s.open[t].sent == |PlanOf(s.open[t])|
      && (MovesPointer(s.open[t].op) ==> s.open[t].located)
    case Abort(t) => t in s.open
  }

  function Committed(rows: Rows, tx: Tx): Rows {
    map id | id in rows ::
      var row := rows[id].(status := Shown(rows, tx, id));
      if tx.op.Evaluate? && id == tx.target then row.(signals := Merge(row.signals, tx.op.update)) else row
  }

  function Sending(s: State, t: nat): State
    requires t in s.open
  {
    s.(open := s.open[t := s.open[t].(sent := s.open[t].sent + 1)])
  }

  ghost function Apply(cfg: Settings, s: State, l: Label): State
    requires Enabled(cfg, s, l)
  {
    match l
    case Register(id, row) => s.(rows := s.rows[id := row])
    case Begin(t, op, target) => s.(open := s.open[t := Tx(op, target, s.rows[target], false, None, 0)])
    case Locate(t, previous) => s.(open := s.open[t := s.open[t].(located := true, previous := previous)])
    case Send(t) => Sending(s, t)
    case Conflict(t) => s.(open := s.open - {t})
    case Commit(t) =>
      var tx := s.open[t];
      State(Committed(s.rows, tx), s.open - {t}, s.decisions + DecisionsOf(tx.op, tx.target, tx.seen, tx.previous))
    case Abort(t) => s.(open := s.open - {t})
  }

  ghost predicate IsRun(cfg: Settings, states: seq<State>, labels: seq<Label>) {
    && |states| == |labels| + 1 && states[0] == INIT
    && forall i :: 0 <= i < |labels| ==>
         Enabled(cfg, states[i], labels[i]) && states[i + 1] == Apply(cfg, states[i], labels[i])
  }

  // ----- The unique index, on rows and overlays alone -----

  type Overlays = map<nat, FlushedRows>

  function OverlaysOf(open: Txs): Overlays { map t | t in open :: Overlay(open[t]) }

  predicate Claims(o: FlushedRows, id: nat) { id in o && o[id] == Some(DEPLOYED) }

  ghost predicate OneDeployed(rows: Rows) {
    forall i, j ::
      i in rows && j in rows && rows[i].model == rows[j].model && rows[i].status == rows[j].status == DEPLOYED ==>
        i == j
  }

  // A transaction that claims a model's pointer is the only one that does, claims it for one row, and
  // has itself updated the row that is DEPLOYED in the table.
  ghost predicate ClaimOk(rows: Rows, o: FlushedRows) {
    && (forall i :: i in o ==> i in rows)
    && (forall i, j :: Claims(o, i) && Claims(o, j) && i in rows && j in rows && rows[i].model == rows[j].model ==>
         i == j)
    && (forall i, p ::
         Claims(o, i) && i in rows && p in rows && rows[p].model == rows[i].model && rows[p].status == DEPLOYED ==>
           p in o && o[p].Some?)
  }

  ghost predicate PairOk(rows: Rows, o: FlushedRows, q: FlushedRows) {
    && o.Keys !! q.Keys
    && (forall i, j :: Claims(o, i) && Claims(q, j) && i in rows && j in rows ==> rows[i].model != rows[j].model)
  }

  ghost predicate IndexOk(rows: Rows, os: Overlays) {
    && OneDeployed(rows)
    && (forall t :: t in os ==> ClaimOk(rows, os[t]))
    && (forall t, u :: t in os && u in os && t != u ==> PairOk(rows, os[t], os[u]))
  }

  function Flushed(o: FlushedRows, w: Write): FlushedRows { o[w.id := w.status] }

  function StatusWith(rows: Rows, o: FlushedRows, id: nat): Status
    requires id in rows
  {
    if id in o && o[id].Some? then o[id].value else rows[id].status
  }

  // With these, what a transaction sees after its flushes never has two DEPLOYED rows of one model.
  lemma ViewHasOne(rows: Rows, o: FlushedRows, i: nat, j: nat)
    requires OneDeployed(rows) && ClaimOk(rows, o)
    requires i in rows && j in rows && rows[i].model == rows[j].model
    requires StatusWith(rows, o, i) == DEPLOYED && StatusWith(rows, o, j) == DEPLOYED
    ensures i == j
  {
    assert Claims(o, i) || rows[i].status == DEPLOYED;
    assert Claims(o, j) || rows[j].status == DEPLOYED;
  }

  ghost predicate MayFlush(rows: Rows, os: Overlays, t: nat, w: Write) {
    && t in os && w.id in rows
    && (forall u :: u in os && u != t ==> w.id !in os[u])
    && (w.status == None ==> w.id !in os[t])
    && (w.status == Some(DEPLOYED) ==>
          && (forall u, id :: u in os && u != t && id in os[u] && id in rows && rows[id].model == rows[w.id].model
                ==> os[u][id] != Some(DEPLOYED) && rows[id].status != DEPLOYED)
          && (forall id :: id in rows && id != w.id && rows[id].model == rows[w.id].model
                ==> StatusWith(rows, os[t], id) != DEPLOYED))
  }

  lemma FlushClaim(rows: Rows, o: FlushedRows, w: Write)
    requires ClaimOk(rows, o) && w.id in rows && (w.status == None ==> w.id !in o)
    requires w.status == Some(DEPLOYED) ==>
               forall id :: id in rows && id != w.id && rows[id].model == rows[w.id].model ==>
                 StatusWith(rows, o, id) != DEPLOYED
    ensures ClaimOk(rows, Flushed(o, w))
  {
    var o' := Flushed(o, w);
    forall i, j | Claims(o', i) && Claims(o', j) && i in rows && j in rows && rows[i].model == rows[j].model
      ensures i == j {
      if i != w.id && j != w.id { assert Claims(o, i) && Claims(o, j); }
    }
    forall i, p | Claims(o', i) && i in rows && p in rows && rows[p].model == rows[i].model
      && rows[p].status == DEPLOYED
      ensures p in o' && o'[p].Some?
    {
      if i != w.id { assert Claims(o, i); }
    }
  }

  lemma FlushPair(rows: Rows, o: FlushedRows, q: FlushedRows, w: Write)
    requires PairOk(rows, o, q) && w.id in rows && w.id !in q
    requires w.status == Some(DEPLOYED) ==>
               forall id :: id in q && id in rows && rows[id].model == rows[w.id].model ==> q[id] != Some(DEPLOYED)
    ensures PairOk(rows, Flushed(o, w), q) && PairOk(rows, q, Flushed(o, w))
  {
    var o' := Flushed(o, w);
    forall i, j | Claims(o', i) && Claims(q, j) && i in rows && j in rows ensures rows[i].model != rows[j].model {
      if i != w.id { assert Claims(o, i); }
    }
  }

  lemma FlushKeeps(rows: Rows, os: Overlays, t: nat, w: Write)
    requires IndexOk(rows, os) && MayFlush(rows, os, t, w)
    ensures IndexOk(rows, os[t := Flushed(os[t], w)])
  {
    FlushClaim(rows, os[t], w);
    forall u | u in os && u != t
      ensures PairOk(rows, Flushed(os[t], w), os[u]) && PairOk(rows, os[u], Flushed(os[t], w))
    {
      FlushPair(rows, os[t], os[u], w);
    }
  }

  // What a commit makes of the table, as far as the index is concerned.
  ghost predicate Lands(rows: Rows, o: FlushedRows, rows': Rows) {
    && rows'.Keys == rows.Keys
    && (forall id :: id in rows ==> rows'[id].model == rows[id].model && rows'[id].status == StatusWith(rows, o, id))
  }

  lemma LandKeeps(rows: Rows, os: Overlays, t: nat, rows': Rows)
    requires IndexOk(rows, os) && t in os && Lands(rows, os[t], rows')
    ensures IndexOk(rows', os - {t})
  {
    forall i, j | i in rows' && j in rows' && rows'[i].model == rows'[j].model
      && rows'[i].status == rows'[j].status == DEPLOYED
      ensures i == j
    {
      ViewHasOne(rows, os[t], i, j);
    }
    forall u | u in os && u != t ensures ClaimOk(rows', os[u]) {
      LandOther(rows, os[t], os[u], rows');
    }
    forall u, v | u in os && v in os && u != v && u != t && v != t ensures PairOk(rows', os[u], os[v]) {
      assert PairOk(rows, os[u], os[v]);
    }
  }

  lemma LandOther(rows: Rows, o: FlushedRows, q: FlushedRows, rows': Rows)
    requires ClaimOk(rows, q) && PairOk(rows, o, q) && Lands(rows, o, rows') && forall i :: i in o ==> i in rows
    ensures ClaimOk(rows', q)
  {
    forall i, p | Claims(q, i) && i in rows' && p in rows' && rows'[p].model == rows'[i].model
      && rows'[p].status == DEPLOYED
      ensures p in q && q[p].Some?
    {
      assert rows[p].status == DEPLOYED || Claims(o, p);
    }
  }

  // ----- The invariant of the protocol -----

  ghost predicate TxOk(cfg: Settings, rows: Rows, tx: Tx) {
    && tx.target in rows && rows[tx.target].model == tx.seen.model && Allowed(cfg, tx.op, tx.seen)
    && tx.sent <= |PlanOf(tx)|
    && (MovesPointer(tx.op) && !tx.located ==> tx.sent == 0 && tx.previous == None)
    && (!MovesPointer(tx.op) ==> tx.previous == None)
    && (tx.previous.Some? ==>
          tx.previous.value in rows && tx.previous.value != tx.target && rows[tx.previous.value].model == tx.seen.model)
  }

  ghost predicate Justified(cfg: Settings, decisions: seq<Decision>, id: nat) {
    exists k :: 0 <= k < |decisions| && Approves(cfg, decisions[k], id)
  }

  ghost predicate RowSound(cfg: Settings, decisions: seq<Decision>, id: nat, row: Row) {
    && (row.status != REGISTERED ==> Complete(row.signals))
    && (Approved(row.status) ==> Justified(cfg, decisions, id))
    && row.status != PRODUCTION
  }

  // The present signals only ever grow.
  predicate Within(a: Signals, b: Signals) {
    (a.loss.Some? ==> b.loss.Some?) && (a.qualitative.Some? ==> b.qualitative.Some?)
      && (a.regressions.Some? ==> b.regressions.Some?)
  }

  // What a transaction loaded was once committed, so what it stood for still holds.
  ghost predicate TxSound(cfg: Settings, rows: Rows, decisions: seq<Decision>, tx: Tx) {
    && tx.target in rows
    && Within(tx.seen.signals, rows[tx.target].signals)
    && (tx.seen.status != REGISTERED ==> Complete(rows[tx.target].signals))
    && (Approved(tx.seen.status) ==> Justified(cfg, decisions, tx.target))
    && tx.seen.status != PRODUCTION
    && (tx.previous.Some? ==>
          && tx.previous.value in rows && Complete(rows[tx.previous.value].signals)
          && Justified(cfg, decisions, tx.previous.value))
  }

  ghost predicate TxsOk(cfg: Settings, rows: Rows, open: Txs) { forall t :: t in open ==> TxOk(cfg, rows, open[t]) }

  ghost predicate Indexed(cfg: Settings, s: State) {
    IndexOk(s.rows, OverlaysOf(s.open)) && TxsOk(cfg, s.rows, s.open)
  }

  ghost predicate Sound(cfg: Settings, rows: Rows, open: Txs, decisions: seq<Decision>) {
    && (forall id :: id in rows ==> RowSound(cfg, decisions, id, rows[id]))
    && (forall t :: t in open ==> TxSound(cfg, rows, decisions, open[t]))
  }

  lemma EmptyOverlayKeeps(rows: Rows, os: Overlays, t: nat)
    requires IndexOk(rows, os) && t !in os
    ensures IndexOk(rows, os[t := map[]])
  {
    assert ClaimOk(rows, map[]);
    forall u | u in os ensures PairOk(rows, map[], os[u]) && PairOk(rows, os[u], map[]) {
      assert ClaimOk(rows, os[u]);
    }
  }

  lemma DropKeeps(rows: Rows, os: Overlays, t: nat)
    requires IndexOk(rows, os)
    ensures IndexOk(rows, os - {t})
  {
  }

  lemma OverlaysAfter(open: Txs, t: nat, tx: Tx)
    ensures OverlaysOf(open[t := tx]) == OverlaysOf(open)[t := Overlay(tx)]
  {
  }

  lemma BeginIndexed(cfg: Settings, s: State, l: Label)
    requires Indexed(cfg, s) && Enabled(cfg, s, l) && l.Begin?
    ensures Indexed(cfg, Apply(cfg, s, l))
  {
    var tx := Tx(l.op, l.target, s.rows[l.target], false, None, 0);
    assert TxOk(cfg, s.rows, tx);
    OverlaysAfter(s.open, l.t, tx);
    EmptyOverlayKeeps(s.rows, OverlaysOf(s.open), l.t);
  }

  lemma LocateIndexed(cfg: Settings, s: State, l: Label)
    requires Indexed(cfg, s) && Enabled(cfg, s, l) && l.Locate?
    ensures Indexed(cfg, Apply(cfg, s, l))
  {
    var tx := s.open[l.t];
    assert TxOk(cfg, s.rows, tx);
    var tx' := tx.(located := true, previous := l.previous);
    assert TxOk(cfg, s.rows, tx');
    SameOverlay(s.open, l.t, tx');
    TxsOkReplaced(cfg, s.rows, s.open, l.t, tx');
  }

  lemma SameOverlay(open: Txs, t: nat, tx: Tx)
    requires t in open && tx.sent == open[t].sent == 0
    ensures OverlaysOf(open[t := tx]) == OverlaysOf(open)
  {
  }

  lemma DropIndexed(cfg: Settings, s: State, t: nat)
    requires Indexed(cfg, s) && t in s.open
    ensures Indexed(cfg, s.(open := s.open - {t}))
  {
    assert OverlaysOf(s.open - {t}) == OverlaysOf(s.open) - {t};
    DropKeeps(s.rows, OverlaysOf(s.open), t);
  }

  lemma RegisterIndex(rows: Rows, os: Overlays, id: nat, row: Row)
    requires IndexOk(rows, os) && id !in rows && row.status == REGISTERED
    ensures IndexOk(rows[id := row], os)
  {
    forall t | t in os ensures ClaimOk(rows[id := row], os[t]) {
      RegisterClaim(rows, os[t], id, row);
    }
    forall t, u | t in os && u in os && t != u ensures PairOk(rows[id := row], os[t], os[u]) {
      RegisterPair(rows, os[t], os[u], id, row);
    }
  }

  lemma RegisterClaim(rows: Rows, o: FlushedRows, id: nat, row: Row)
    requires ClaimOk(rows, o) && id !in rows && row.status == REGISTERED
    ensures ClaimOk(rows[id := row], o)
  {
  }

  lemma RegisterPair(rows: Rows, o: FlushedRows, q: FlushedRows, id: nat, row: Row)
    requires PairOk(rows, o, q) && ClaimOk(rows, o) && ClaimOk(rows, q) && id !in rows
    ensures PairOk(rows[id := row], o, q)
  {
  }

  // Rows are never deleted and never change model.
  ghost predicate SameVersions(rows: Rows, rows': Rows) {
    forall id :: id in rows ==> id in rows' && rows'[id].model == rows[id].model
  }

  lemma TxsOkAfter(cfg: Settings, rows: Rows, rows': Rows, open: Txs)
    requires TxsOk(cfg, rows, open) && SameVersions(rows, rows')
    ensures TxsOk(cfg, rows', open)
  {
    forall t | t in open ensures TxOk(cfg, rows', open[t]) {
      assert TxOk(cfg, rows, open[t]);
    }
  }

  lemma RegisterIndexed(cfg: Settings, s: State, l: Label)
    requires Indexed(cfg, s) && Enabled(cfg, s, l) && l.Register?
    ensures Indexed(cfg, Apply(cfg, s, l))
  {
    RegisterIndex(s.rows, OverlaysOf(s.open), l.id, l.row);
    TxsOkAfter(cfg, s.rows, s.rows[l.id := l.row], s.open);
  }

  lemma TxOkSent(cfg: Settings, rows: Rows, tx: Tx)
    requires TxOk(cfg, rows, tx) && tx.sent < |PlanOf(tx)| && (MovesPointer(tx.op) ==> tx.located)
    ensures TxOk(cfg, rows, tx.(sent := tx.sent + 1))
  {
  }

  lemma OverlaySent(tx: Tx)
    requires tx.sent < |PlanOf(tx)|
    ensures Overlay(tx.(sent := tx.sent + 1)) == Flushed(Overlay(tx), PlanOf(tx)[tx.sent])
  {
  }

  lemma SentTxs(cfg: Settings, rows: Rows, open: Txs, t: nat)
    requires TxsOk(cfg, rows, open) && t in open && open[t].sent < |PlanOf(open[t])|
               && (MovesPointer(open[t].op) ==> open[t].located)
    ensures TxsOk(cfg, rows, open[t := open[t].(sent := open[t].sent + 1)])
  {
    TxOkSent(cfg, rows, open[t]);
    TxsOkReplaced(cfg, rows, open, t, open[t].(sent := open[t].sent + 1));
  }

  lemma TxsOkReplaced(cfg: Settings, rows: Rows, open: Txs, t: nat, tx: Tx)
    requires TxsOk(cfg, rows, open) && TxOk(cfg, rows, tx)
    ensures TxsOk(cfg, rows, open[t := tx])
  {
  }

  lemma SendMayFlush(s: State, t: nat, w: Write)
    requires Ready(s, t) && !Breaks(s, t) && w == PlanOf(s.open[t])[s.open[t].sent]
    ensures MayFlush(s.rows, OverlaysOf(s.open), t, w)
  {
    NoneMeansFirst(s.open[t], w);
    if w.status == Some(DEPLOYED) {
      KeyFreeMeans(s.rows, s.open, t, w.id);
      SeesNoOther(s, t, w);
    }
  }

  lemma SeesNoOther(s: State, t: nat, w: Write)
    requires Ready(s, t) && !Breaks(s, t) && w == PlanOf(s.open[t])[s.open[t].sent] && w.status == Some(DEPLOYED)
    ensures forall id :: id in s.rows && id != w.id && s.rows[id].model == s.rows[w.id].model
              ==> StatusWith(s.rows, OverlaysOf(s.open)[t], id) != DEPLOYED
  {
    forall id | id in s.rows && id != w.id && s.rows[id].model == s.rows[w.id].model
      ensures StatusWith(s.rows, Overlay(s.open[t]), id) != DEPLOYED
    {
      assert Shown(s.rows, s.open[t], id) == StatusWith(s.rows, Overlay(s.open[t]), id);
    }
  }

  lemma NoneMeansFirst(tx: Tx, w: Write)
    requires tx.sent < |PlanOf(tx)| && w == PlanOf(tx)[tx.sent]
    ensures w.status == None ==> Overlay(tx) == map[]
  {
  }

  lemma KeyFreeMeans(rows: Rows, open: Txs, t: nat, target: nat)
    requires target in rows && KeyFree(rows, open, t, rows[target].model)
    ensures forall u, id ::
              u in open && u != t && id in OverlaysOf(open)[u] && id in rows && rows[id].model == rows[target].model
              ==> OverlaysOf(open)[u][id] != Some(DEPLOYED) && rows[id].status != DEPLOYED
  {
    forall u, id | u in open && u != t && id in Overlay(open[u]) && id in rows && rows[id].model == rows[target].model
      ensures Overlay(open[u])[id] != Some(DEPLOYED) && rows[id].status != DEPLOYED
    {
      assert !Touches(rows, open[u], rows[target].model);
    }
  }

  lemma CommitLands(rows: Rows, tx: Tx)
    ensures Lands(rows, Overlay(tx), Committed(rows, tx)) && SameVersions(rows, Committed(rows, tx))
  {
    assert Committed(rows, tx).Keys == rows.Keys;
  }

  lemma OverlaysWithout(open: Txs, t: nat)
    ensures OverlaysOf(open - {t}) == OverlaysOf(open) - {t}
  {
  }

  lemma CommitIndexed(cfg: Settings, s: State, t: nat, decisions: seq<Decision>)
    requires Indexed(cfg, s) && t in s.open
    ensures Indexed(cfg, State(Committed(s.rows, s.open[t]), s.open - {t}, decisions))
  {
    var rows' := Committed(s.rows, s.open[t]);
    CommitLands(s.rows, s.open[t]);
    LandIndexed(cfg, s, t, rows');
  }

  lemma LandIndexed(cfg: Settings, s: State, t: nat, rows': Rows)
    requires Indexed(cfg, s) && t in s.open && Lands(s.rows, Overlay(s.open[t]), rows') && SameVersions(s.rows, rows')
    ensures IndexOk(rows', OverlaysOf(s.open - {t})) && TxsOk(cfg, rows', s.open - {t})
  {
    LandKeeps(s.rows, OverlaysOf(s.open), t, rows');
    OverlaysWithout(s.open, t);
    TxsOkAfter(cfg, s.rows, rows', s.open - {t});
  }

  lemma SendStep(cfg: Settings, s: State, l: Label)
    requires Indexed(cfg, s) && Enabled(cfg, s, l) && l.Send?
    ensures Indexed(cfg, Apply(cfg, s, l))
  {
    SendMayFlush(s, l.t, PlanOf(s.open[l.t])[s.open[l.t].sent]);
    SendIndex(s, l.t);
    SendTxs(cfg, s, l.t);
  }

  lemma SendIndex(s: State, t: nat)
    requires IndexOk(s.rows, OverlaysOf(s.open)) && t in s.open && s.open[t].sent < |PlanOf(s.open[t])|
    requires MayFlush(s.rows, OverlaysOf(s.open), t, PlanOf(s.open[t])[s.open[t].sent])
    ensures IndexOk(s.rows, OverlaysOf(Sending(s, t).open))
  {
    OpenSends(s.rows, s.open, t);
  }

  lemma OpenSends(rows: Rows, open: Txs, t: nat)
    requires IndexOk(rows, OverlaysOf(open)) && t in open && open[t].sent < |PlanOf(open[t])|
    requires MayFlush(rows, OverlaysOf(open), t, PlanOf(open[t])[open[t].sent])
    ensures IndexOk(rows, OverlaysOf(open[t := open[t].(sent := open[t].sent + 1)]))
  {
    OverlayMoves(open, t);
    FlushKeeps(rows, OverlaysOf(open), t, PlanOf(open[t])[open[t].sent]);
  }

  lemma OverlayMoves(open: Txs, t: nat)
    requires t in open && open[t].sent < |PlanOf(open[t])|
    ensures OverlaysOf(open[t := open[t].(sent := open[t].sent + 1)])
            == OverlaysOf(open)[t := Flushed(OverlaysOf(open)[t], PlanOf(open[t])[open[t].sent])]
  {
    OverlaySent(open[t]);
    OverlaysAfter(open, t, open[t].(sent := open[t].sent + 1));
  }

  lemma SendTxs(cfg: Settings, s: State, t: nat)
    requires TxsOk(cfg, s.rows, s.open) && Ready(s, t)
    ensures TxsOk(cfg, s.rows, Sending(s, t).open)
  {
    SentTxs(cfg, s.rows, s.open, t);
  }

  lemma CommitStep(cfg: Settings, s: State, l: Label)
    requires Indexed(cfg, s) && Enabled(cfg, s, l) && l.Commit?
    ensures Indexed(cfg, Apply(cfg, s, l))
  {
    CommitIndexed(cfg, s, l.t, Apply(cfg, s, l).decisions);
  }

  lemma DropStep(cfg: Settings, s: State, l: Label)
    requires Indexed(cfg, s) && Enabled(cfg, s, l) && (l.Conflict? || l.Abort?)
    ensures Indexed(cfg, Apply(cfg, s, l))
  {
    DropIndexed(cfg, s, l.t);
  }

  lemma StepIndexed(cfg: Settings, s: State, l: Label)
    requires Indexed(cfg, s) && Enabled(cfg, s, l)
    ensures Indexed(cfg, Apply(cfg, s, l))
  {
    match l
    case Register(_, _) => RegisterIndexed(cfg, s, l);
    case Begin(_, _, _) => BeginIndexed(cfg, s, l);
    case Locate(_, _) => LocateIndexed(cfg, s, l);
    case Send(_) => SendStep(cfg, s, l);
    case Commit(_) => CommitStep(cfg, s, l);
    case Conflict(_) => DropStep(cfg, s, l);
    case Abort(_) => DropStep(cfg, s, l);
  }

  // ----- What every committed row stands for -----

  lemma JustifiedGrows(cfg: Settings, decisions: seq<Decision>, more: seq<Decision>, id: nat)
    ensures Justified(cfg, decisions, id) ==> Justified(cfg, decisions + more, id)
    ensures (exists d :: d in more && Approves(cfg, d, id)) ==> Justified(cfg, decisions + more, id)
  {
    if Justified(cfg, decisions, id) {
      var k :| 0 <= k < |decisions| && Approves(cfg, decisions[k], id);
      assert (decisions + more)[k] == decisions[k];
    }
    if d :| d in more && Approves(cfg, d, id) {
      var j :| 0 <= j < |more| && more[j] == d;
      assert (decisions + more)[|decisions| + j] == d;
    }
  }

  // The status the whole plan leaves on the target.
  function Final(op: Op, seen: Row): Option<Status> {
    match op
    case Decide(promote) => Some(if promote then PROMOTED else REJECTED)
    case Stage(_) => Some(STAGING)
    case ValidateStaging => Some(VALIDATED)
    case Evaluate(update) => if Complete(Merge(seen.signals, update)) && seen.status == REGISTERED then Some(EVALUATED)
      else None
    case Archive => Some(ARCHIVED)
    case Unarchive(to) => Some(to)
    case _ => Some(DEPLOYED)
  }

  // A whole plan sets the target and the version that was DEPLOYED, and no other row. Only staging
  // gives the pointer back.
  lemma WholePlan(tx: Tx)
    requires tx.sent == |PlanOf(tx)| && (tx.previous.Some? ==> tx.previous.value != tx.target && MovesPointer(tx.op))
    ensures Overlay(tx).Keys == {tx.target} + (if tx.previous.Some? then {tx.previous.value} else {})
    ensures Overlay(tx)[tx.target] == Final(tx.op, tx.seen)
    ensures tx.previous.Some? ==> Overlay(tx)[tx.previous.value] == Some(if tx.op.Stage? then DEPLOYED else RETIRED)
  {
    var ws := PlanOf(tx);
    assert Effect(ws, 0) == map[];
    assert Effect(ws, 1) == Flushed(map[], ws[0]);
    if |ws| >= 2 { assert Effect(ws, 2) == Flushed(Effect(ws, 1), ws[1]); }
    if |ws| >= 3 { assert Effect(ws, 3) == Flushed(Effect(ws, 2), ws[2]); }
    if |ws| >= 4 { assert Effect(ws, 4) == Flushed(Effect(ws, 3), ws[3]); }
  }

  // The row a commit leaves behind, for the target, the previous version and any other.
  lemma CommittedRow(rows: Rows, tx: Tx, id: nat)
    requires tx.sent == |PlanOf(tx)| && (tx.previous.Some? ==> tx.previous.value != tx.target && MovesPointer(tx.op))
    requires id in rows
    ensures var row := Committed(rows, tx)[id];
            && (id == tx.target ==>
                  && row.status
                       == (if Final(tx.op, tx.seen).Some? then Final(tx.op, tx.seen).value else rows[id].status)
                  && row.signals
                       == (if tx.op.Evaluate? then Merge(rows[id].signals, tx.op.update) else rows[id].signals))
            && (id != tx.target ==> row.signals == rows[id].signals)
            && (tx.previous == Some(id) ==> row.status == (if tx.op.Stage? then DEPLOYED else RETIRED))
            && (id != tx.target && tx.previous != Some(id) ==> row == rows[id])
  {
    WholePlan(tx);
  }

  lemma TargetSound(cfg: Settings, rows: Rows, decisions: seq<Decision>, tx: Tx)
    requires TxOk(cfg, rows, tx) && TxSound(cfg, rows, decisions, tx) && tx.sent == |PlanOf(tx)|
    requires RowSound(cfg, decisions, tx.target, rows[tx.target])
    ensures RowSound(cfg, decisions + DecisionsOf(tx.op, tx.target, tx.seen, tx.previous), tx.target,
              Committed(rows, tx)[tx.target])
  {
    var more := DecisionsOf(tx.op, tx.target, tx.seen, tx.previous);
    CommittedRow(rows, tx, tx.target);
    JustifiedGrows(cfg, decisions, more, tx.target);
    if tx.op.Decide? || tx.op.ValidateStaging? || tx.op.Rollback? {
      assert more[0] in more;
      assert tx.op != Decide(false) ==> Approves(cfg, more[0], tx.target);
    }
  }

  lemma CommitRows(cfg: Settings, rows: Rows, decisions: seq<Decision>, tx: Tx, id: nat)
    requires TxOk(cfg, rows, tx) && TxSound(cfg, rows, decisions, tx) && tx.sent == |PlanOf(tx)|
    requires id in rows && RowSound(cfg, decisions, id, rows[id])
    ensures RowSound(cfg, decisions + DecisionsOf(tx.op, tx.target, tx.seen, tx.previous), id, Committed(rows, tx)[id])
  {
    if id == tx.target {
      TargetSound(cfg, rows, decisions, tx);
    } else {
      CommittedRow(rows, tx, id);
      JustifiedGrows(cfg, decisions, DecisionsOf(tx.op, tx.target, tx.seen, tx.previous), id);
    }
  }

  lemma CommitOthers(cfg: Settings, rows: Rows, decisions: seq<Decision>, tx: Tx, u: Tx)
    requires TxOk(cfg, rows, tx) && tx.sent == |PlanOf(tx)| && TxSound(cfg, rows, decisions, u)
    ensures TxSound(cfg, Committed(rows, tx), decisions + DecisionsOf(tx.op, tx.target, tx.seen, tx.previous), u)
  {
    var more := DecisionsOf(tx.op, tx.target, tx.seen, tx.previous);
    CommittedRow(rows, tx, u.target);
    JustifiedGrows(cfg, decisions, more, u.target);
    if u.previous.Some? {
      CommittedRow(rows, tx, u.previous.value);
      JustifiedGrows(cfg, decisions, more, u.previous.value);
    }
  }

  lemma CommitSound(cfg: Settings, s: State, t: nat)
    requires Indexed(cfg, s) && Sound(cfg, s.rows, s.open, s.decisions) && t in s.open
               && s.open[t].sent == |PlanOf(s.open[t])|
    ensures var tx := s.open[t];
            Sound(cfg, Committed(s.rows, tx), s.open - {t},
              s.decisions + DecisionsOf(tx.op, tx.target, tx.seen, tx.previous))
  {
    var tx := s.open[t];
    assert TxOk(cfg, s.rows, tx) && TxSound(cfg, s.rows, s.decisions, tx);
    var decisions' := s.decisions + DecisionsOf(tx.op, tx.target, tx.seen, tx.previous);
    forall id | id in s.rows ensures RowSound(cfg, decisions', id, Committed(s.rows, tx)[id]) {
      CommitRows(cfg, s.rows, s.decisions, tx, id);
    }
    forall u | u in s.open && u != t ensures TxSound(cfg, Committed(s.rows, tx), decisions', s.open[u]) {
      CommitOthers(cfg, s.rows, s.decisions, tx, s.open[u]);
    }
  }

  lemma SoundReplaced(cfg: Settings, s: State, t: nat, tx: Tx)
    requires Sound(cfg, s.rows, s.open, s.decisions) && TxSound(cfg, s.rows, s.decisions, tx)
    ensures Sound(cfg, s.rows, s.open[t := tx], s.decisions)
  {
  }

  lemma BeginSound(cfg: Settings, s: State, l: Label)
    requires Sound(cfg, s.rows, s.open, s.decisions) && Enabled(cfg, s, l) && l.Begin?
    ensures Sound(cfg, s.rows, Apply(cfg, s, l).open, s.decisions)
  {
    assert RowSound(cfg, s.decisions, l.target, s.rows[l.target]);
    SoundReplaced(cfg, s, l.t, Tx(l.op, l.target, s.rows[l.target], false, None, 0));
  }

  lemma LocateSound(cfg: Settings, s: State, l: Label)
    requires Sound(cfg, s.rows, s.open, s.decisions) && Enabled(cfg, s, l) && l.Locate?
    ensures Sound(cfg, s.rows, Apply(cfg, s, l).open, s.decisions)
  {
    var tx := s.open[l.t];
    assert TxSound(cfg, s.rows, s.decisions, tx);
    if l.previous.Some? { assert RowSound(cfg, s.decisions, l.previous.value, s.rows[l.previous.value]); }
    SoundReplaced(cfg, s, l.t, tx.(located := true, previous := l.previous));
  }

  lemma SendSound(cfg: Settings, s: State, t: nat)
    requires Sound(cfg, s.rows, s.open, s.decisions) && t in s.open
    ensures Sound(cfg, s.rows, Sending(s, t).open, s.decisions)
  {
    var tx := s.open[t];
    assert TxSound(cfg, s.rows, s.decisions, tx);
    SoundReplaced(cfg, s, t, tx.(sent := tx.sent + 1));
  }

  lemma RegisterSound(cfg: Settings, s: State, id: nat, row: Row)
    requires Sound(cfg, s.rows, s.open, s.decisions) && id !in s.rows && row.status == REGISTERED
    ensures Sound(cfg, s.rows[id := row], s.open, s.decisions)
  {
    forall t | t in s.open ensures TxSound(cfg, s.rows[id := row], s.decisions, s.open[t]) {
      assert TxSound(cfg, s.rows, s.decisions, s.open[t]);
    }
  }

  lemma StepSound(cfg: Settings, s: State, l: Label)
    requires Indexed(cfg, s) && Sound(cfg, s.rows, s.open, s.decisions) && Enabled(cfg, s, l)
    ensures Sound(cfg, Apply(cfg, s, l).rows, Apply(cfg, s, l).open, Apply(cfg, s, l).decisions)
  {
    match l
    case Register(id, row) => RegisterSound(cfg, s, id, row);
    case Begin(_, _, _) => BeginSound(cfg, s, l);
    case Locate(_, _) => LocateSound(cfg, s, l);
    case Send(t) => SendSound(cfg, s, t);
    case Commit(t) => CommitSound(cfg, s, t);
    case _ =>
  }

  lemma {:induction false} InvAlways(cfg: Settings, states: seq<State>, labels: seq<Label>, i: nat)
    requires IsRun(cfg, states, labels) && i < |states|
    ensures Indexed(cfg, states[i]) && Sound(cfg, states[i].rows, states[i].open, states[i].decisions)
  {
    if i == 0 {
      assert OverlaysOf(INIT.open) == map[];
    } else {
      InvAlways(cfg, states, labels, i - 1);
      StepIndexed(cfg, states[i - 1], labels[i - 1]);
      StepSound(cfg, states[i - 1], labels[i - 1]);
    }
  }

  // ----- Main results, over every run of overlapping release transactions -----

  // At most one version of a model is DEPLOYED, in the committed table and in what any transaction sees
  // after any of its flushes.
  lemma OneDeployedAlways(cfg: Settings, states: seq<State>, labels: seq<Label>, n: nat, i: nat, j: nat)
    requires IsRun(cfg, states, labels) && n < |states|
    requires i in states[n].rows && j in states[n].rows && states[n].rows[i].model == states[n].rows[j].model && i != j
    ensures !(states[n].rows[i].status == DEPLOYED && states[n].rows[j].status == DEPLOYED)
    ensures forall t :: t in states[n].open ==>
              !(Shown(states[n].rows, states[n].open[t], i) == DEPLOYED
                && Shown(states[n].rows, states[n].open[t], j) == DEPLOYED)
  {
    InvAlways(cfg, states, labels, n);
    var s := states[n];
    forall t | t in s.open
      ensures !(Shown(s.rows, s.open[t], i) == DEPLOYED && Shown(s.rows, s.open[t], j) == DEPLOYED) {
      var o := Overlay(s.open[t]);
      assert OverlaysOf(s.open)[t] == o && ClaimOk(s.rows, o);
      if StatusWith(s.rows, o, i) == DEPLOYED && StatusWith(s.rows, o, j) == DEPLOYED { ViewHasOne(s.rows, o, i, j); }
    }
  }

  // Every committed version that is PROMOTED, VALIDATED, DEPLOYED, RETIRED or ARCHIVED has all three
  // evaluation signals, and a decision that approves it: promoted on evidence that cleared the gate,
  // validated from STAGING, or rolled back to. However old the copies were that anybody acted on.
  lemma ApprovedIsJustified(cfg: Settings, states: seq<State>, labels: seq<Label>, n: nat, id: nat)
    requires IsRun(cfg, states, labels) && n < |states| && id in states[n].rows && Approved(states[n].rows[id].status)
    ensures Complete(states[n].rows[id].signals)
    ensures exists k :: 0 <= k < |states[n].decisions| && Approves(cfg, states[n].decisions[k], id)
  {
    InvAlways(cfg, states, labels, n);
    assert RowSound(cfg, states[n].decisions, id, states[n].rows[id]);
  }

  // What a pointer move has set so far when its next update sets a row DEPLOYED.
  lemma BeforeClaim(tx: Tx)
    requires MovesPointer(tx.op) && tx.sent < |PlanOf(tx)| && PlanOf(tx)[tx.sent].status == Some(DEPLOYED)
    requires tx.previous.Some? ==> tx.previous.value != tx.target
    ensures PlanOf(tx)[tx.sent].id == tx.target || tx.previous == Some(PlanOf(tx)[tx.sent].id)
    ensures tx.previous.Some? ==> tx.previous.value in Overlay(tx) && Overlay(tx)[tx.previous.value] == Some(RETIRED)
    ensures tx.target in Overlay(tx) ==> Overlay(tx)[tx.target] == Some(STAGING)
    ensures PlanOf(tx)[tx.sent].id != tx.target ==> tx.target in Overlay(tx)
    ensures forall id :: id in Overlay(tx) ==> id == tx.target || tx.previous == Some(id)
  {
    var ws := PlanOf(tx);
    assert Effect(ws, 0) == map[];
    if tx.sent >= 1 { assert Effect(ws, 1) == Flushed(map[], ws[0]); }
    if tx.sent >= 2 { assert Effect(ws, 2) == Flushed(Effect(ws, 1), ws[1]); }
    if tx.sent >= 3 { assert Effect(ws, 3) == Flushed(Effect(ws, 2), ws[2]); }
  }

  // The index stops a flush exactly when some version other than the target and the one the
  // transaction found is DEPLOYED by then. The transaction can then only roll back, so a loser of the
  // race commits nothing.
  lemma IndexBreaksExactly(cfg: Settings, states: seq<State>, labels: seq<Label>, n: nat, t: nat)
    requires IsRun(cfg, states, labels) && n < |states| && Ready(states[n], t)
    ensures var s, tx := states[n], states[n].open[t];
            Breaks(s, t) <==> && MovesPointer(tx.op) && PlanOf(tx)[tx.sent].status == Some(DEPLOYED)
                              && exists id ::
                                   DeployedIn(s.rows, id, tx.seen.model) && id != tx.target && tx.previous != Some(id)
  {
    InvAlways(cfg, states, labels, n);
    var s, tx := states[n], states[n].open[t];
    assert TxOk(cfg, s.rows, tx);
    OnlyMovesDeploy(cfg, tx);
    if PlanOf(tx)[tx.sent].status == Some(DEPLOYED) {
      ClaimView(s.rows, tx);
      BreaksMeans(s, t);
    }
  }

  // What the transaction sees DEPLOYED beside the row it is about to set.
  lemma ClaimView(rows: Rows, tx: Tx)
    requires MovesPointer(tx.op) && tx.sent < |PlanOf(tx)| && PlanOf(tx)[tx.sent].status == Some(DEPLOYED)
    requires tx.target in rows && rows[tx.target].model == tx.seen.model
    requires tx.previous.Some? ==>
               tx.previous.value != tx.target && tx.previous.value in rows
                 && rows[tx.previous.value].model == tx.seen.model
    ensures PlanOf(tx)[tx.sent].id in rows && rows[PlanOf(tx)[tx.sent].id].model == tx.seen.model
    ensures PlanOf(tx)[tx.sent].id == tx.target || tx.previous == Some(PlanOf(tx)[tx.sent].id)
    ensures forall id :: id in rows && id != PlanOf(tx)[tx.sent].id ==>
              (Shown(rows, tx, id) == DEPLOYED
              <==> id != tx.target && tx.previous != Some(id) && rows[id].status == DEPLOYED)
  {
    BeforeClaim(tx);
    var o := Overlay(tx);
    forall id | id in rows && id != PlanOf(tx)[tx.sent].id
      ensures Shown(rows, tx, id) == DEPLOYED
              <==> id != tx.target && tx.previous != Some(id) && rows[id].status == DEPLOYED
    {
      assert Shown(rows, tx, id) == StatusWith(rows, o, id);
    }
  }

  lemma BreaksMeans(s: State, t: nat)
    requires Ready(s, t) && PlanOf(s.open[t])[s.open[t].sent].status == Some(DEPLOYED)
    requires var tx := s.open[t];
             && s.rows[PlanOf(tx)[tx.sent].id].model == tx.seen.model
             && (PlanOf(tx)[tx.sent].id == tx.target || tx.previous == Some(PlanOf(tx)[tx.sent].id))
             && (forall id :: id in s.rows && id != PlanOf(tx)[tx.sent].id ==>
                   (Shown(s.rows, tx, id) == DEPLOYED
                   <==> id != tx.target && tx.previous != Some(id) && s.rows[id].status == DEPLOYED))
    ensures var tx := s.open[t];
            Breaks(s, t)
            <==> exists id :: DeployedIn(s.rows, id, tx.seen.model) && id != tx.target && tx.previous != Some(id)
  {
    var tx := s.open[t];
    if id :| DeployedIn(s.rows, id, tx.seen.model) && id != tx.target && tx.previous != Some(id) {
      assert Shown(s.rows, tx, id) == DEPLOYED;
    }
  }

  lemma OnlyMovesDeploy(cfg: Settings, tx: Tx)
    requires Allowed(cfg, tx.op, tx.seen) && tx.sent < |PlanOf(tx)|
    ensures PlanOf(tx)[tx.sent].status == Some(DEPLOYED) ==> MovesPointer(tx.op)
  {
  }

  // From its query for the DEPLOYED version on, a transaction never meets the index unless some other
  // transaction has committed meanwhile; alone it never does, in either direction of its updates.
  lemma {:induction false} NoConflictWithoutCommit(cfg: Settings, states: seq<State>, labels: seq<Label>, i: nat,
      n: nat, t: nat)
    requires IsRun(cfg, states, labels) && i < n < |states|
    requires labels[i].Locate? && labels[i].t == t && t in states[n].open
    requires forall k :: i < k < n ==> !labels[k].Commit? && !(labels[k].Begin? && labels[k].t == t)
                                       && labels[k] != Abort(t) && labels[k] != Conflict(t)
    ensures !(Ready(states[n], t) && Breaks(states[n], t))
  {
    Undisturbed(cfg, states, labels, i, n, t);
    if Ready(states[n], t) { IndexBreaksExactly(cfg, states, labels, n, t); }
  }

  // The transaction is past its query, and no version but its target and what it found is DEPLOYED.
  ghost predicate Confirmed(s: State, t: nat) {
    && t in s.open && s.open[t].located
    && forall id :: DeployedIn(s.rows, id, s.open[t].seen.model) ==>
         id == s.open[t].target || s.open[t].previous == Some(id)
  }

  // Nothing but a commit changes which rows are DEPLOYED, so what the query found stays true.
  lemma {:induction false} Undisturbed(cfg: Settings, states: seq<State>, labels: seq<Label>, i: nat, n: nat, t: nat)
    requires IsRun(cfg, states, labels) && i < n < |states|
    requires labels[i].Locate? && labels[i].t == t
    requires forall k :: i < k < n ==> !labels[k].Commit? && !(labels[k].Begin? && labels[k].t == t)
                                       && labels[k] != Abort(t) && labels[k] != Conflict(t)
    ensures Confirmed(states[n], t)
  {
    if n == i + 1 {
      InvAlways(cfg, states, labels, i);
      LocateConfirms(cfg, states[i], labels[i]);
    } else {
      Undisturbed(cfg, states, labels, i, n - 1, t);
      StaysConfirmed(cfg, states[n - 1], labels[n - 1], t);
    }
  }

  lemma LocateConfirms(cfg: Settings, s: State, l: Label)
    requires OneDeployed(s.rows) && Enabled(cfg, s, l) && l.Locate?
    ensures Confirmed(Apply(cfg, s, l), l.t)
  {
    var tx := s.open[l.t];
    if l.previous.Some? {
      assert DeployedIn(s.rows, l.previous.value, tx.seen.model);
    }
  }

  lemma StaysConfirmed(cfg: Settings, s: State, l: Label, t: nat)
    requires Enabled(cfg, s, l) && Confirmed(s, t)
    requires !l.Commit? && !(l.Begin? && l.t == t) && l != Abort(t) && l != Conflict(t)
    ensures Confirmed(Apply(cfg, s, l), t)
  {
    var s' := Apply(cfg, s, l);
    assert l.Locate? ==> l.t != t;
    forall id | DeployedIn(s'.rows, id, s.open[t].seen.model)
      ensures id == s.open[t].target || s.open[t].previous == Some(id)
    {
      assert DeployedIn(s.rows, id, s.open[t].seen.model);
    }
  }

  // A committed deploy, promotion or rollback leaves exactly its target DEPLOYED.
  lemma PointerMoves(cfg: Settings, states: seq<State>, labels: seq<Label>, n: nat, t: nat, id: nat)
    requires IsRun(cfg, states, labels) && n < |labels| && labels[n] == Commit(t)
    requires MovesPointer(states[n].open[t].op) && !states[n].open[t].op.Stage?
    ensures DeployedIn(states[n + 1].rows, id, states[n].open[t].seen.model) <==> id == states[n].open[t].target
  {
    InvAlways(cfg, states, labels, n);
    InvAlways(cfg, states, labels, n + 1);
    var s, tx := states[n], states[n].open[t];
    assert TxOk(cfg, s.rows, tx);
    CommittedRow(s.rows, tx, tx.target);
    assert OneDeployed(states[n + 1].rows);
    assert DeployedIn(states[n + 1].rows, tx.target, tx.seen.model);
  }

  // A committed staging leaves every model's pointer where it was exactly when its own candidate was
  // not made DEPLOYED, and the version it found DEPLOYED still was so, by the time it commits.
  lemma StagingKeepsPointerExactly(cfg: Settings, states: seq<State>, labels: seq<Label>, n: nat, t: nat)
    requires IsRun(cfg, states, labels) && n < |labels| && labels[n] == Commit(t) && states[n].open[t].op.Stage?
    ensures var s, s', tx := states[n], states[n + 1], states[n].open[t];
            (forall id, m :: DeployedIn(s'.rows, id, m) <==> DeployedIn(s.rows, id, m))
            <==> && tx.target in s.rows && s.rows[tx.target].status != DEPLOYED
                 && (tx.previous.Some? ==> tx.previous.value in s.rows && s.rows[tx.previous.value].status == DEPLOYED)
  {
    InvAlways(cfg, states, labels, n);
    var s, s', tx := states[n], states[n + 1], states[n].open[t];
    assert TxOk(cfg, s.rows, tx);
    StagedRows(s.rows, tx);
    StagedPointer(s.rows, tx, s'.rows);
  }

  lemma StagedRows(rows: Rows, tx: Tx)
    requires tx.op.Stage? && tx.sent == |PlanOf(tx)| && (tx.previous.Some? ==> tx.previous.value != tx.target)
    ensures StagedAs(rows, tx, Committed(rows, tx))
  {
    forall id | id in rows
      ensures id == tx.target ==> Committed(rows, tx)[id].status == STAGING
      ensures tx.previous == Some(id) ==> Committed(rows, tx)[id].status == DEPLOYED
      ensures id != tx.target && tx.previous != Some(id) ==> Committed(rows, tx)[id] == rows[id]
    {
      CommittedRow(rows, tx, id);
    }
  }

  // The rows after a staging: the candidate STAGING, the version that was DEPLOYED so again.
  ghost predicate StagedAs(rows: Rows, tx: Tx, rows': Rows) {
    && rows'.Keys == rows.Keys
    && (forall id :: id in rows ==>
          && rows'[id].model == rows[id].model
          && (id == tx.target ==> rows'[id].status == STAGING)
          && (tx.previous == Some(id) ==> rows'[id].status == DEPLOYED)
          && (id != tx.target && tx.previous != Some(id) ==> rows'[id] == rows[id]))
  }

  lemma StagedPointer(rows: Rows, tx: Tx, rows': Rows)
    requires StagedAs(rows, tx, rows') && tx.target in rows && rows[tx.target].model == tx.seen.model
    requires tx.previous.Some? ==>
               tx.previous.value in rows && tx.previous.value != tx.target
                 && rows[tx.previous.value].model == tx.seen.model
    ensures (forall id, m :: DeployedIn(rows', id, m) <==> DeployedIn(rows, id, m))
            <==> && rows[tx.target].status != DEPLOYED
                 && (tx.previous.Some? ==> rows[tx.previous.value].status == DEPLOYED)
  {
    assert DeployedIn(rows, tx.target, tx.seen.model) <==> rows[tx.target].status == DEPLOYED;
    assert !DeployedIn(rows', tx.target, tx.seen.model);
    if tx.previous.Some? {
      var p := tx.previous.value;
      assert DeployedIn(rows', p, tx.seen.model);
      assert DeployedIn(rows, p, tx.seen.model) <==> rows[p].status == DEPLOYED;
    }
  }

  ghost predicate NoneDeployed(rows: Rows, m: string) { forall id :: id in rows ==> !DeployedIn(rows, id, m) }

  // A commit can leave a model that had a DEPLOYED version without one, and exactly in one way: an
  // operation that is not a pointer move - or a staging that found nothing to give the pointer back to
  // - acts on an old copy of the row that has become DEPLOYED since, and sets its status.
  lemma PointerLostExactly(cfg: Settings, states: seq<State>, labels: seq<Label>, n: nat, t: nat, p: nat, m: string)
    requires IsRun(cfg, states, labels) && n < |labels| && labels[n] == Commit(t) && DeployedIn(states[n].rows, p, m)
    ensures var tx := states[n].open[t];
            && (NoneDeployed(states[n + 1].rows, m)
                <==> && (!MovesPointer(tx.op) || (tx.op.Stage? && tx.previous == None))
                     && tx.target == p && Final(tx.op, tx.seen).Some?)
            && (NoneDeployed(states[n + 1].rows, m) ==> tx.seen.status != DEPLOYED)
  {
    InvAlways(cfg, states, labels, n);
    assert TxOk(cfg, states[n].rows, states[n].open[t]);
    CommitLosesPointer(cfg, states[n].rows, states[n].open[t], p, m);
  }

  lemma CommitLosesPointer(cfg: Settings, rows: Rows, tx: Tx, p: nat, m: string)
    requires OneDeployed(rows) && TxOk(cfg, rows, tx) && DeployedIn(rows, p, m)
    requires tx.sent == |PlanOf(tx)| && (MovesPointer(tx.op) ==> tx.located)
    ensures NoneDeployed(Committed(rows, tx), m)
            <==> && (!MovesPointer(tx.op) || (tx.op.Stage? && tx.previous == None))
                 && tx.target == p && Final(tx.op, tx.seen).Some?
    ensures NoneDeployed(Committed(rows, tx), m) ==> tx.seen.status != DEPLOYED
  {
    var rows' := Committed(rows, tx);
    CommittedRow(rows, tx, p);
    CommittedRow(rows, tx, tx.target);
    FinalStatuses(cfg, tx);
    if tx.previous.Some? {
      CommittedRow(rows, tx, tx.previous.value);
      assert tx.op.Stage? ==> DeployedIn(rows', tx.previous.value, tx.seen.model);
    }
    assert MovesPointer(tx.op) && !tx.op.Stage? ==> DeployedIn(rows', tx.target, tx.seen.model);
    assert DeployedIn(rows', p, m) <==> rows'[p].status == DEPLOYED;
    forall id | id != p && id != tx.target && tx.previous != Some(id) ensures !DeployedIn(rows', id, m) {
      if id in rows { CommittedRow(rows, tx, id); }
    }
  }

  // Only pointer moves set DEPLOYED, and nothing acts on a copy that was DEPLOYED already.
  lemma FinalStatuses(cfg: Settings, tx: Tx)
    requires Allowed(cfg, tx.op, tx.seen)
    ensures Final(tx.op, tx.seen) == Some(DEPLOYED) <==> MovesPointer(tx.op) && !tx.op.Stage?
    ensures tx.seen.status == DEPLOYED ==> Final(tx.op, tx.seen) == None
  {
  }
}
