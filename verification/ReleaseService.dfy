/** The release endpoints as one request after another runs them: a database session with flushes, a
    commit or a rollback by the router, and a serving backend that is not part of the transaction.

    `Answers` is what the outside world does to one request. A deploy or a staging is given the version
    its query found, which another transaction may have overtaken since: that is how a serial run meets
    the index. */
module ReleaseService {
  import opened Wrappers
  import opened Releases
  import opened ReleaseProtocol

  datatype Deployment = Deployment(model: string, version: nat, environment: Environment, at: int)

  datatype Failure = LockTimeout | ChecksumMismatch | BaseModelMismatch | LoadFailed | SmokeFailed | IndexConflict
      | CommitFailed | NoticeFailed

  // `generated`: the length of the smoke-test generation, none if it raised. `unloads`: whether the
  // best-effort unloads reach the backend. `commits`: whether the database accepts the router's commit.
  datatype Answers = Answers(lockFree: bool, checksumOk: bool, loads: bool, generated: Option<nat>, unloads: bool,
      commits: bool)

  datatype Options = Options(gate: Settings, servedBase: Option<string>, smokeTest: bool, minChars: nat)

  datatype Response = Success | NotAllowed | GateBlocked | Failed(failure: Failure)

  datatype DeploymentStatus = DeploymentStatus(version: Option<nat>, deployedAt: Option<int>)

  const NO_SIGNALS := Signals(None, None, None, None, None)

  // The query for the DEPLOYED version ran now, or so long ago that others have committed since.
  datatype Query = Fresh | Overtaken(found: Option<nat>)

  // What an overtaken query may have found: another version of the target's model.
  ghost predicate Findable(rows: Rows, target: nat, query: Query)
    requires target in rows
  {
    query.Overtaken? && query.found.Some? ==>
      query.found.value in rows && query.found.value != target && rows[query.found.value].model == rows[target].model
  }

  // What the query finds: a fresh one the DEPLOYED version, if there is one.
  ghost predicate Finds(rows: Rows, target: nat, query: Query, previous: Option<nat>)
    requires target in rows
  {
    && (query.Overtaken? ==> previous == query.found)
    && (query.Fresh? ==> forall j: nat :: DeployedIn(rows, j, rows[target].model) <==> previous == Some(j))
  }

  function HistoryRow(row: Row, environment: Environment, at: int): Deployment {
    Deployment(row.model, row.version, environment, at)
  }

  function Or<T>(given: Option<T>, held: Option<T>): Option<T> { if given == None then held else given }

  function Updated(held: Signals, given: Signals): Signals {
    Signals(Or(given.loss, held.loss), Or(given.qualitative, held.qualitative), Or(given.regressions, held.regressions),
            Or(given.evalSetId, held.evalSetId), Or(given.evalSetVersion, held.evalSetVersion))
  }

  // Distinct rows are distinct versions.
  ghost predicate Distinct(rows: Rows) {
    forall i, j :: i in rows && j in rows && rows[i].model == rows[j].model && rows[i].version == rows[j].version ==>
      i == j
  }

  // The adapter of every DEPLOYED version is loaded.
  ghost predicate Resident(rows: Rows, loaded: set<nat>) {
    forall id :: id in rows && rows[id].status == DEPLOYED ==> id in loaded
  }

  // The newest history row of a version.
  function DeployedAt(history: seq<Deployment>, m: string, v: nat): Option<int> {
    if history == [] then None
    else
      var last := history[|history| - 1];
      var rest := DeployedAt(history[..|history| - 1], m, v);
      if last.model == m && last.version == v && (rest == None || rest.value <= last.at) then Some(last.at) else rest
  }

  // The newest row's time: some row of the version has it, and none is newer.
  lemma {:induction false} DeployedAtExactly(history: seq<Deployment>, m: string, v: nat, t: int)
    ensures DeployedAt(history, m, v) == Some(t) <==>
              && (exists k ::
                   0 <= k < |history| && history[k].model == m && history[k].version == v && history[k].at == t)
              && (forall k :: 0 <= k < |history| && history[k].model == m && history[k].version == v ==>
                   history[k].at <= t)
  {
    if history != [] {
      var n, front := |history| - 1, history[..|history| - 1];
      assert forall k :: 0 <= k < n ==> history[k] == front[k];
      DeployedAtExactly(front, m, v, t);
      if DeployedAt(front, m, v).Some? { DeployedAtExactly(front, m, v, DeployedAt(front, m, v).value); }
      if DeployedAt(front, m, v) == None {
        NeverDeployed(front, m, v);
      }
    }
  }

  lemma {:induction false} NeverDeployed(history: seq<Deployment>, m: string, v: nat)
    ensures DeployedAt(history, m, v) == None <==>
              forall k :: 0 <= k < |history| ==> !(history[k].model == m && history[k].version == v)
  {
    if history != [] { NeverDeployed(history[..|history| - 1], m, v); }
  }

  // `get_deployment_status`; `resolve_alias` answers with the same version.
  ghost predicate IsStatus(rows: Rows, history: seq<Deployment>, m: string, st: DeploymentStatus) {
    || ((forall id :: id in rows ==> !DeployedIn(rows, id, m)) && st == DeploymentStatus(None, None))
    || (exists id :: DeployedIn(rows, id, m)
                     && st == DeploymentStatus(Some(rows[id].version), DeployedAt(history, m, rows[id].version)))
  }

  function FirstFailure(o: Options, a: Answers, base: string): Option<Failure> {
    if !a.lockFree then Some(LockTimeout)
    else if !a.checksumOk then Some(ChecksumMismatch)
    else if o.servedBase.Some? && base != o.servedBase.value then Some(BaseModelMismatch)
    else if !a.loads then Some(LoadFailed)
    else if o.smokeTest && (a.generated == None || a.generated.value < o.minChars) then Some(SmokeFailed)
    else None
  }

  // What the router answers. `announced`: a smoke failure is announced to the admins, in a commit of its own.
  function Answer(failure: Option<Failure>, announced: bool, commits: bool): Response {
    if failure == None then (if commits then Success else Failed(CommitFailed))
    else if failure == Some(SmokeFailed) && announced && !commits then Failed(NoticeFailed)
    else Failed(failure.value)
  }

  // A deploy succeeds exactly when the lock is free, the artifact's checksum and base model are right, it
  // loads, it passes the smoke test if there is one, no third version is DEPLOYED and the commit goes
  // through. What fails first of these is what is answered.
  lemma SucceedsExactly(o: Options, a: Answers, rows: Rows, target: nat, previous: Option<nat>, announced: bool)
    requires target in rows
    ensures Answer(DeployFailure(o, a, rows, target, previous), announced, a.commits) == Success <==>
              && a.lockFree && a.checksumOk && a.loads && a.commits
              && (o.servedBase.Some? ==> rows[target].base == o.servedBase.value)
              && (o.smokeTest ==> a.generated.Some? && a.generated.value >= o.minChars)
              && forall j: nat :: DeployedIn(rows, j, rows[target].model) ==> j == target || previous == Some(j)
    ensures Answer(DeployFailure(o, a, rows, target, previous), announced, a.commits) == Failed(IndexConflict) <==>
              && a.lockFree && a.checksumOk && a.loads
              && (o.servedBase.Some? ==> rows[target].base == o.servedBase.value)
              && (o.smokeTest ==> a.generated.Some? && a.generated.value >= o.minChars)
              && exists j: nat :: DeployedIn(rows, j, rows[target].model) && j != target && previous != Some(j)
    ensures Answer(DeployFailure(o, a, rows, target, previous), announced, a.commits) == Failed(ChecksumMismatch) <==>
              a.lockFree && !a.checksumOk
    ensures Answer(DeployFailure(o, a, rows, target, previous), announced, a.commits) == Failed(SmokeFailed) ==>
              && a.lockFree && a.checksumOk && a.loads && o.smokeTest && (announced ==> a.commits)
              && (a.generated == None || a.generated.value < o.minChars)
  {
  }

  // The backend has dropped the adapter of the version that stays DEPLOYED because the commit failed.
  ghost predicate Stranded(response: Response, a: Answers, rows: Rows, previous: Option<nat>) {
    response == Failed(CommitFailed) && Drops(rows, a, previous)
  }

  ghost predicate Drops(rows: Rows, a: Answers, previous: Option<nat>) {
    a.unloads && previous.Some? && previous.value in rows && rows[previous.value].status == DEPLOYED
  }

  // How a deploy of the target ends that found `previous` DEPLOYED: the first check that fails, or the
  // index if a version other than these two is DEPLOYED by then.
  ghost function DeployFailure(o: Options, a: Answers, rows: Rows, target: nat, previous: Option<nat>): Option<Failure>
    requires target in rows
  {
    var first := FirstFailure(o, a, rows[target].base);
    if first.Some? then first
    else if forall j: nat :: DeployedIn(rows, j, rows[target].model) ==> j == target || previous == Some(j) then None
    else Some(IndexConflict)
  }

  lemma StillOne(rows: Rows, id: nat, status: Status)
    requires OneDeployed(rows) && id in rows
    requires status == DEPLOYED ==> forall j :: j != id ==> !DeployedIn(rows, j, rows[id].model)
    ensures OneDeployed(rows[id := rows[id].(status := status)])
  {
    var rows' := rows[id := rows[id].(status := status)];
    forall i, j | i in rows' && j in rows' && rows'[i].model == rows'[j].model
      && rows'[i].status == rows'[j].status == DEPLOYED
      ensures i == j
    {
      assert j != id ==>
               (DeployedIn(rows, j, rows[id].model) <==> rows[j].model == rows[id].model && rows[j].status == DEPLOYED);
      assert i != id ==>
               (DeployedIn(rows, i, rows[id].model) <==> rows[i].model == rows[id].model && rows[i].status == DEPLOYED);
    }
  }

  function Dropped(a: Answers, previous: Option<nat>): set<nat> {
    if a.unloads && previous.Some? then {previous.value} else {}
  }

  // The candidate was staged, `previous` got the pointer back and nothing else changed.
  ghost predicate StagedBeside(rows: Rows, target: nat, previous: Option<nat>, rows': Rows) {
    && target in rows && rows'.Keys == rows.Keys && rows'[target] == rows[target].(status := STAGING)
    && (previous.Some? ==> previous.value in rows && rows'[previous.value] == rows[previous.value].(status := DEPLOYED))
    && (forall id :: id in rows && id != target && previous != Some(id) ==> rows'[id] == rows[id])
  }

  // The pointer went from `previous` to the target and nothing else changed.
  ghost predicate PointedTo(rows: Rows, target: nat, previous: Option<nat>, rows': Rows) {
    && target in rows && rows'.Keys == rows.Keys && rows'[target] == rows[target].(status := DEPLOYED)
    && (previous.Some? ==> previous.value in rows && rows'[previous.value] == rows[previous.value].(status := RETIRED))
    && (forall id :: id in rows && id != target && previous != Some(id) ==> rows'[id] == rows[id])
  }

  class ReleaseService {
    const options: Options
    var rows: Rows                      // as flushed in the open session
    var history: seq<Deployment>
    var decisions: seq<Decision>
    var savedRows: Rows                 // as committed
    var savedHistory: seq<Deployment>
    var savedDecisions: seq<Decision>
    var notices: seq<nat>               // admin notices of failed production deployments, by version
    var savedNotices: seq<nat>
    var loaded: set<nat>                // adapters resident in the serving backend

    ghost predicate Clean()
      reads this
    {
      rows == savedRows && history == savedHistory && decisions == savedDecisions && notices == savedNotices
    }

    ghost predicate Valid()
      reads this
    {
      Clean() && OneDeployed(rows) && Distinct(rows)
    }

    constructor (options: Options)
      ensures Valid() && this.options == options && rows == map[] && history == [] && decisions == [] && loaded == {}
      ensures notices == []
    {
      this.options := options;
      rows, history, decisions, loaded := map[], [], [], {};
      savedRows, savedHistory, savedDecisions := map[], [], [];
      notices, savedNotices := [], [];
    }

    method CommitSession()
      modifies this
      ensures Clean() && rows == old(rows) && history == old(history) && decisions == old(decisions)
                && loaded == old(loaded)
      ensures notices == old(notices)
    {
      savedRows, savedHistory, savedDecisions, savedNotices := rows, history, decisions, notices;
    }

    method RollbackSession()
      modifies this
      ensures Clean() && savedRows == old(savedRows) && savedHistory == old(savedHistory)
      ensures savedDecisions == old(savedDecisions) && loaded == old(loaded) && savedNotices == old(savedNotices)
    {
      rows, history, decisions, notices := savedRows, savedHistory, savedDecisions, savedNotices;
    }

    // The end of an operation's transaction: its decisions and the commit, or a rollback if that fails.
    method CommitOperation(more: seq<Decision>, a: Answers) returns (ok: bool)
      requires notices == savedNotices
      modifies this
      ensures Clean() && ok == a.commits && loaded == old(loaded) && savedNotices == old(savedNotices)
      ensures ok ==> savedRows == old(rows) && savedHistory == old(history) && savedDecisions == old(decisions) + more
      ensures !ok ==>
                savedRows == old(savedRows) && savedHistory == old(savedHistory)
                  && savedDecisions == old(savedDecisions)
    {
      ok := a.commits;
      if ok {
        decisions := decisions + more;
        CommitSession();
      } else {
        RollbackSession();
      }
    }

    // The end of a refused operation: a rollback, unless the smoke failure is announced first.
    method EndRefused(failure: Failure, target: nat, announced: bool, a: Answers) returns (response: Response)
      requires notices == savedNotices && (failure == SmokeFailed ==> Clean())
      modifies this
      ensures Clean() && loaded == old(loaded) && response == Answer(Some(failure), announced, a.commits)
      ensures savedRows == old(savedRows) && savedHistory == old(savedHistory) && savedDecisions == old(savedDecisions)
      ensures savedNotices == old(savedNotices) + if announced && response == Failed(SmokeFailed) then [target] else []
    {
      if failure == SmokeFailed && announced {
        if a.commits {
          notices := notices + [target];
          CommitSession();
          return Failed(SmokeFailed);
        }
        RollbackSession();
        return Failed(NoticeFailed);
      }
      RollbackSession();
      response := Failed(failure);
    }

    // The end of a pointer move that failed or went through, by what the router answers.
    method EndOperation(failure: Option<Failure>, target: nat, more: seq<Decision>, announced: bool, a: Answers)
        returns (response: Response)
      requires notices == savedNotices && (failure == Some(SmokeFailed) ==> Clean())
      modifies this
      ensures Clean() && loaded == old(loaded) && response == Answer(failure, announced, a.commits)
      ensures response == Success ==>
                savedRows == old(rows) && savedHistory == old(history) && savedDecisions == old(decisions) + more
      ensures response != Success ==>
                savedRows == old(savedRows) && savedHistory == old(savedHistory)
                  && savedDecisions == old(savedDecisions)
      ensures savedNotices == old(savedNotices) + if announced && response == Failed(SmokeFailed) then [target] else []
    {
      if failure.Some? {
        response := EndRefused(failure.value, target, announced, a);
      } else {
        var ok := CommitOperation(more, a);
        response := if ok then Success else Failed(CommitFailed);
      }
    }

    // One UPDATE: refused by the partial unique index if it makes a second DEPLOYED row of the model.
    method FlushStatus(id: nat, status: Status) returns (ok: bool)
      requires id in rows && OneDeployed(rows)
      modifies this`rows
      ensures ok <==> !(status == DEPLOYED && exists j :: j != id && DeployedIn(old(rows), j, old(rows)[id].model))
      ensures rows == if ok then old(rows)[id := old(rows)[id].(status := status)] else old(rows)
      ensures OneDeployed(rows)
    {
      var others := set j | j in rows && j != id && DeployedIn(rows, j, rows[id].model);
      ok := status != DEPLOYED || others == {};
      assert ok || (exists j :: j in others);
      assert forall j :: j in others <==> j != id && DeployedIn(rows, j, rows[id].model);
      if ok {
        assert status == DEPLOYED ==> forall j :: j != id ==> !DeployedIn(rows, j, rows[id].model);
        StillOne(rows, id, status);
        rows := rows[id := rows[id].(status := status)];
      }
    }

    // The DEPLOYED version of the target's model other than the target.
    method FindPrevious(target: nat) returns (previous: Option<nat>)
      requires target in rows
      ensures previous.Some? ==> previous.value != target && DeployedIn(rows, previous.value, rows[target].model)
      ensures previous == None ==> forall j :: DeployedIn(rows, j, rows[target].model) ==> j == target
    {
      var found := set j | j in rows && j != target && DeployedIn(rows, j, rows[target].model);
      if found == {} {
        assert forall j :: DeployedIn(rows, j, rows[target].model) && j != target ==> j in found;
        return None;
      }
      var j :| j in found;
      previous := Some(j);
    }

    // The first half of `_deploy_locked`, behind the lock: check the artifact, load it, try it. No row
    // changes here.
    method LoadAndTest(target: nat, a: Answers) returns (failure: Option<Failure>)
      requires target in rows
      modifies this`loaded
      ensures failure == FirstFailure(options, a, rows[target].base)
      ensures failure == None <==>
                && a.lockFree && a.checksumOk && a.loads
                && (options.servedBase.Some? ==> rows[target].base == options.servedBase.value)
                && (options.smokeTest ==> a.generated.Some? && a.generated.value >= options.minChars)
      ensures failure == Some(LockTimeout) <==> !a.lockFree
      ensures failure == Some(ChecksumMismatch) <==> a.lockFree && !a.checksumOk
      ensures failure == Some(BaseModelMismatch) <==>
                a.lockFree && a.checksumOk && options.servedBase.Some? && rows[target].base != options.servedBase.value
      ensures failure == Some(LoadFailed) <==>
                && a.lockFree && a.checksumOk && !a.loads
                && (options.servedBase.Some? ==> rows[target].base == options.servedBase.value)
      ensures failure == Some(SmokeFailed) <==>
                && a.lockFree && a.checksumOk && a.loads
                && (options.servedBase.Some? ==> rows[target].base == options.servedBase.value)
                && options.smokeTest && (a.generated == None || a.generated.value < options.minChars)
      ensures failure == None ==> loaded == old(loaded) + {target}
      ensures failure == Some(SmokeFailed) ==>
                loaded == if a.unloads then old(loaded) - {target} else old(loaded) + {target}
      ensures failure.Some? && failure != Some(SmokeFailed) ==> loaded == old(loaded)
    {
      if !a.lockFree { return Some(LockTimeout); }
      if !a.checksumOk { return Some(ChecksumMismatch); }
      if options.servedBase.Some? && rows[target].base != options.servedBase.value { return Some(BaseModelMismatch); }
      if !a.loads { return Some(LoadFailed); }
      loaded := loaded + {target};
      if options.smokeTest && (a.generated == None || a.generated.value < options.minChars) {
        if a.unloads { loaded := loaded - {target}; }
        return Some(SmokeFailed);
      }
      failure := None;
    }

    // The retirement, flushed on its own.
    method Retire(previous: Option<nat>, m: string, a: Answers)
      requires OneDeployed(rows) && (previous.Some? ==> previous.value in rows && rows[previous.value].model == m)
      modifies this`rows, this`loaded
      ensures rows == if previous.Some? then old(rows)[previous.value := old(rows)[previous.value].(status := RETIRED)]
                else old(rows)
      ensures loaded == old(loaded) - Dropped(a, previous) && OneDeployed(rows)
      ensures forall j: nat :: DeployedIn(rows, j, m) <==> DeployedIn(old(rows), j, m) && previous != Some(j)
    {
      if previous.Some? {
        if a.unloads { loaded := loaded - {previous.value}; }
        var retired := FlushStatus(previous.value, RETIRED);
      }
    }

    // The second half: retire, then deploy. The retirement is flushed on its own before the target is
    // made DEPLOYED; a target that meets the index is unloaded again.
    method MovePointer(target: nat, previous: Option<nat>, a: Answers, environment: Environment, now: int)
        returns (ok: bool)
      requires OneDeployed(rows) && target in rows
      requires previous.Some? ==>
                 previous.value in rows && previous.value != target && rows[previous.value].model == rows[target].model
      modifies this`rows, this`history, this`loaded
      ensures ok <==> forall j: nat :: DeployedIn(old(rows), j, old(rows)[target].model) ==>
                j == target || previous == Some(j)
      ensures OneDeployed(rows)
      ensures ok ==> PointedTo(old(rows), target, previous, rows)
      ensures !ok ==> history == old(history)
      ensures ok ==>
                history == old(history)
                           + [Deployment(old(rows)[target].model, old(rows)[target].version, environment, now)]
      ensures loaded == if !a.unloads then old(loaded)
                        else old(loaded) - (if previous.Some? then {previous.value} else {}) - (if ok then {}
                          else {target})
    {
      Retire(previous, rows[target].model, a);
      ok := FlushStatus(target, DEPLOYED);
      if ok {
        history := history + [HistoryRow(rows[target], environment, now)];
      } else if a.unloads {
        loaded := loaded - {target};
      }
    }

    // `_deploy_locked`. Failing before the retirement leaves every row as it was; the conflict with the
    // index arises exactly when a version other than the target and `previous` is DEPLOYED.
    method DeployLocked(target: nat, previous: Option<nat>, a: Answers, environment: Environment, now: int)
        returns (failure: Option<Failure>)
      requires Valid() && target in rows
      requires previous.Some? ==>
                 previous.value in rows && previous.value != target && rows[previous.value].model == rows[target].model
      modifies this`rows, this`history, this`loaded
      ensures failure == DeployFailure(options, a, old(rows), target, previous)
      ensures failure.Some? && failure != Some(IndexConflict) ==> Clean()
      ensures failure == None ==> PointedTo(old(rows), target, previous, rows) && target in loaded
      ensures failure == None ==>
                history == old(history) + [HistoryRow(old(rows)[target], environment, now)]
      ensures failure == None ==> loaded == (old(loaded) + {target}) - Dropped(a, previous)
      ensures forall id :: id != target && previous != Some(id) ==> (id in loaded <==> id in old(loaded))
      ensures previous.Some? && (failure == None || failure == Some(IndexConflict)) ==>
                (previous.value in loaded <==> previous.value in old(loaded) && !a.unloads)
      ensures previous.Some? && failure.Some? && failure != Some(IndexConflict) ==>
                (previous.value in loaded <==> previous.value in old(loaded))
      ensures OneDeployed(rows)
    {
      failure := LoadAndTest(target, a);
      if failure == None {
        var ok := MovePointer(target, previous, a, environment, now);
        if !ok { failure := Some(IndexConflict); }
      }
    }

    // The second half of `stage_deploy`: the candidate is demoted before the pointer is given back, so
    // neither flush meets the index.
    method GiveBack(target: nat, previous: Option<nat>)
      requires OneDeployed(rows) && target in rows && rows[target].status == DEPLOYED
      requires previous.Some? ==>
                 previous.value in rows && previous.value != target && rows[previous.value].model == rows[target].model
      modifies this`rows
      ensures OneDeployed(rows) && rows.Keys == old(rows).Keys
      ensures rows[target] == old(rows)[target].(status := STAGING)
      ensures previous.Some? ==> rows[previous.value] == old(rows)[previous.value].(status := DEPLOYED)
      ensures forall id :: id in rows && id != target && previous != Some(id) ==> rows[id] == old(rows)[id]
    {
      ghost var m := rows[target].model;
      assert forall j :: DeployedIn(rows, j, m) ==> j == target;
      var demoted := FlushStatus(target, STAGING);
      assert forall j :: !DeployedIn(rows, j, m);
      if previous.Some? {
        var restored := FlushStatus(previous.value, DEPLOYED);
        assert restored;
      }
    }

    // ----- The endpoints: guard, service call, then commit or rollback -----

    ghost predicate Serving()
      reads this
    {
      Resident(savedRows, loaded)
    }

    // `deployment_service.deploy`: the query, then the locked body.
    method Deploy(target: nat, query: Query, a: Answers, environment: Environment, now: int)
        returns (failure: Option<Failure>, previous: Option<nat>)
      requires Valid() && target in rows && rows[target].status != DEPLOYED
      requires Findable(rows, target, query)
      modifies this`rows, this`history, this`loaded
      ensures Finds(old(rows), target, query, previous)
      ensures previous.Some? ==> previous.value != target
      ensures failure == DeployFailure(options, a, old(rows), target, previous)
      ensures failure == None ==>
                && PointedTo(old(rows), target, previous, rows) && target in loaded && Distinct(rows)
                     && OneDeployed(rows)
                && history == old(history) + [HistoryRow(old(rows)[target], environment, now)]
                && (Resident(old(rows), old(loaded)) ==> Resident(rows, loaded))
                && loaded == (old(loaded) + {target}) - Dropped(a, previous)
      ensures failure.Some? && failure != Some(IndexConflict) ==> Clean()
      ensures failure.Some? && Resident(old(rows), old(loaded)) ==> Resident(old(rows), loaded)
    {
      if query.Fresh? {
        previous := FindPrevious(target);
        OnlyPrevious(rows, target, previous);
      } else {
        previous := query.found;
      }
      failure := DeployLocked(target, previous, a, environment, now);
      if failure.Some? {
        KeepsServing(old(rows), old(loaded), target, previous, loaded, failure.value == IndexConflict);
      } else {
        MovedServes(old(rows), target, previous, rows, old(loaded), loaded);
      }
    }

    // Deploy to staging and give the pointer back to the version the query found.
    method StageDeploy(target: nat, query: Query, a: Answers, now: int)
        returns (failure: Option<Failure>, previous: Option<nat>)
      requires Valid() && target in rows && rows[target].status != DEPLOYED
      requires Findable(rows, target, query)
      modifies this`rows, this`history, this`loaded
      ensures Finds(old(rows), target, query, previous)
      ensures previous.Some? ==> previous.value != target
      ensures failure == DeployFailure(options, a, old(rows), target, previous)
      ensures failure == Some(SmokeFailed) ==> Clean()
      ensures failure == None ==>
                && StagedBeside(old(rows), target, previous, rows) && OneDeployed(rows) && Distinct(rows)
                && history == old(history) + [HistoryRow(old(rows)[target], StagingEnvironment, now)]
                && loaded == (old(loaded) + {target}) - Dropped(a, previous)
      ensures failure.Some? && Resident(old(rows), old(loaded)) ==> Resident(old(rows), loaded)
    {
      failure, previous := Deploy(target, query, a, StagingEnvironment, now);
      if failure == None {
        GiveBack(target, previous);
        StagedDistinct(old(rows), target, previous, rows);
      }
    }

    // A deploy as the session sees it before its commit, in the protocol's terms.
    method FlushMove(op: Op, target: nat, query: Query, a: Answers, environment: Environment, now: int)
        returns (failure: Option<Failure>, previous: Option<nat>)
      requires Valid() && target in rows && rows[target].status != DEPLOYED && MovesPointer(op) && !op.Stage?
      requires Findable(rows, target, query)
      modifies this`rows, this`history, this`loaded
      ensures Finds(old(rows), target, query, previous)
      ensures failure == DeployFailure(options, a, old(rows), target, previous)
      ensures failure == Some(SmokeFailed) ==> Clean()
      ensures failure == None ==>
                && rows == After(op, target, previous, old(rows)) && target in loaded && Distinct(rows)
                     && OneDeployed(rows)
                && PointedTo(old(rows), target, previous, rows)
                && history == old(history) + [HistoryRow(old(rows)[target], environment, now)]
      ensures Resident(old(rows), old(loaded)) ==>
                && (failure == None ==> Resident(rows, loaded))
                && (Resident(old(rows), loaded) <==> !(failure == None && Drops(old(rows), a, previous)))
    {
      failure, previous := Deploy(target, query, a, environment, now);
      if failure == None {
        StrandedExactly(old(rows), old(loaded), loaded, a, target, previous);
        MovedIsCommitted(old(rows), op, target, previous, rows);
      }
    }

    // A deploy inside an endpoint that has passed its guard: the whole transaction of the operation is
    // committed, or nothing is - but for the notice of a smoke failure, where the endpoint announces one.
    // Production's adapter stays loaded either way, except that a commit failing after the unload leaves
    // the version DEPLOYED whose adapter is gone.
    method MoveAndCommit(op: Op, target: nat, query: Query, a: Answers, environment: Environment, announced: bool,
        now: int)
        returns (response: Response, ghost previous: Option<nat>)
      requires Valid() && target in rows && rows[target].status != DEPLOYED && MovesPointer(op) && !op.Stage?
      requires Findable(rows, target, query)
      modifies this
      ensures Valid()
      ensures Finds(old(rows), target, query, previous)
      ensures response == Answer(DeployFailure(options, a, old(rows), target, previous), announced, a.commits)
      ensures response == Success ==>
                && a.commits && a.lockFree && a.checksumOk && a.loads
                && (options.servedBase.Some? ==> old(rows)[target].base == options.servedBase.value)
                && (options.smokeTest ==> a.generated.Some? && a.generated.value >= options.minChars)
      ensures response == Success ==>
                && savedRows == After(op, target, previous, old(savedRows))
                && PointedTo(old(savedRows), target, previous, savedRows)
                && savedDecisions == old(savedDecisions) + DecisionsOf(op, target, old(savedRows)[target], previous)
                && savedHistory == old(savedHistory) + [HistoryRow(old(savedRows)[target], environment, now)]
                && target in loaded
      ensures response != Success ==>
                savedRows == old(savedRows) && savedHistory == old(savedHistory)
                  && savedDecisions == old(savedDecisions)
      ensures savedNotices == old(savedNotices) + if announced && response == Failed(SmokeFailed) then [target] else []
      ensures old(Serving()) ==> (Serving() <==> !Stranded(response, a, old(rows), previous))
    {
      var seen := rows[target];
      var failure, found := FlushMove(op, target, query, a, environment, now);
      previous := found;
      response := EndOperation(failure, target, DecisionsOf(op, target, seen, found), announced, a);
      SucceedsExactly(options, a, old(rows), target, found, announced);
    }

    // `deploy_model_version` for the default and the production environment.
    method DeployModelVersion(target: nat, environment: Environment, query: Query, a: Answers, now: int)
        returns (response: Response, ghost previous: Option<nat>)
      requires Valid() && target in rows && !environment.StagingEnvironment?
      requires Findable(rows, target, query)
      modifies this
      ensures Valid()
      ensures old(Serving()) ==> (Serving() <==> !Stranded(response, a, old(rows), previous))
      ensures savedNotices == old(savedNotices)
                              + if environment.ProductionEnvironment? && response == Failed(SmokeFailed) then [target]
                                else []
      ensures response == if !Allowed(options.gate, Op.Deploy(environment), old(rows)[target]) then NotAllowed
                          else Answer(DeployFailure(options, a, old(rows), target, previous),
                            environment.ProductionEnvironment?, a.commits)
      ensures response != NotAllowed ==> Finds(old(rows), target, query, previous)
      ensures response == Success ==>
                && a.commits && a.lockFree && a.checksumOk && a.loads
                && (options.servedBase.Some? ==> old(rows)[target].base == options.servedBase.value)
                && (options.smokeTest ==> a.generated.Some? && a.generated.value >= options.minChars)
      ensures response == NotAllowed <==>
                old(rows)[target].status
                !in if environment.ProductionEnvironment? then {VALIDATED, PRODUCTION, PROMOTED} else {PROMOTED}
      ensures response == Success ==> PointedTo(old(savedRows), target, previous, savedRows)
      ensures response == Success ==>
                && savedRows == After(Op.Deploy(environment), target, previous, old(savedRows))
                && savedHistory == old(savedHistory) + [HistoryRow(old(savedRows)[target], environment, now)]
      ensures response != Success ==> savedRows == old(savedRows) && savedHistory == old(savedHistory)
      ensures savedDecisions == old(savedDecisions)
    {
      previous := None;
      var status := rows[target].status;
      if environment.ProductionEnvironment? {
        if status !in {VALIDATED, PRODUCTION, PROMOTED} { return NotAllowed, None; }
      } else if status != PROMOTED {
        return NotAllowed, None;
      }
      response, previous :=
        MoveAndCommit(Op.Deploy(environment), target, query, a, environment, environment.ProductionEnvironment?, now);
    }

    method PromoteProduction(target: nat, query: Query, a: Answers, now: int)
        returns (response: Response, ghost previous: Option<nat>)
      requires Valid() && target in rows
      requires Findable(rows, target, query)
      modifies this
      ensures Valid()
      ensures old(Serving()) ==> (Serving() <==> !Stranded(response, a, old(rows), previous))
      ensures savedNotices == old(savedNotices) + if response == Failed(SmokeFailed) then [target] else []
      ensures response == if old(rows)[target].status !in {VALIDATED, PROMOTED, DEPLOYED, PRODUCTION} then GateBlocked
                          else if !Allowed(options.gate, PromoteToProduction, old(rows)[target]) then NotAllowed
                          else Answer(DeployFailure(options, a, old(rows), target, previous), true, a.commits)
      ensures response == Success ==>
                && a.commits && a.lockFree && a.checksumOk && a.loads
                && (options.servedBase.Some? ==> old(rows)[target].base == options.servedBase.value)
                && (options.smokeTest ==> a.generated.Some? && a.generated.value >= options.minChars)
      ensures response == NotAllowed <==> old(rows)[target].status in {DEPLOYED, PRODUCTION}
      ensures response == Success ==>
                && PointedTo(old(savedRows), target, previous, savedRows)
                && savedDecisions
                   == old(savedDecisions)
                     + [Decision(target, PRODUCTION_DECISION, old(rows)[target].status, None, None)]
      ensures response == Success ==>
                && savedRows == After(PromoteToProduction, target, previous, old(savedRows))
                && savedDecisions
                     == old(savedDecisions) + DecisionsOf(PromoteToProduction, target, old(savedRows)[target], previous)
                && savedHistory == old(savedHistory) + [HistoryRow(old(savedRows)[target], ProductionEnvironment, now)]
      ensures response != Success ==>
                savedRows == old(savedRows) && savedHistory == old(savedHistory)
                  && savedDecisions == old(savedDecisions)
    {
      previous := None;
      var status := rows[target].status;
      if status !in {VALIDATED, PROMOTED, DEPLOYED, PRODUCTION} { return GateBlocked, None; }
      if status !in {VALIDATED, PROMOTED} { return NotAllowed, None; }
      response, previous := MoveAndCommit(PromoteToProduction, target, query, a, ProductionEnvironment, true, now);
    }

    method RollbackModel(target: nat, environment: Environment, query: Query, a: Answers, now: int)
        returns (response: Response, ghost previous: Option<nat>)
      requires Valid() && target in rows
      requires Findable(rows, target, query)
      modifies this
      ensures Valid()
      ensures old(Serving()) ==> (Serving() <==> !Stranded(response, a, old(rows), previous))
      ensures savedNotices == old(savedNotices)
      ensures response == if !Allowed(options.gate, Rollback, old(rows)[target]) then NotAllowed
                          else Answer(DeployFailure(options, a, old(rows), target, previous), false, a.commits)
      ensures response == Success ==>
                && a.commits && a.lockFree && a.checksumOk && a.loads
                && (options.servedBase.Some? ==> old(rows)[target].base == options.servedBase.value)
                && (options.smokeTest ==> a.generated.Some? && a.generated.value >= options.minChars)
      ensures response == NotAllowed <==>
                old(rows)[target].status !in {PROMOTED, RETIRED, STAGING, VALIDATED, PRODUCTION}
      // The decision is recorded against the version rolled back from, if there was one.
      ensures response == Success ==>
                var subject := if previous.Some? then previous.value else target;
                && PointedTo(old(savedRows), target, previous, savedRows)
                && savedDecisions
                   == old(savedDecisions)
                      + [Decision(subject, ROLLBACK_DECISION, old(rows)[target].status, None, Some(target))]
      ensures response == Success ==>
                && savedRows == After(Rollback, target, previous, old(savedRows))
                && savedDecisions
                     == old(savedDecisions) + DecisionsOf(Rollback, target, old(savedRows)[target], previous)
                && savedHistory == old(savedHistory) + [HistoryRow(old(savedRows)[target], environment, now)]
      ensures response != Success ==>
                savedRows == old(savedRows) && savedHistory == old(savedHistory)
                  && savedDecisions == old(savedDecisions)
    {
      previous := None;
      if rows[target].status !in ROLLBACK_TARGETS { return NotAllowed, None; }
      response, previous := MoveAndCommit(Rollback, target, query, a, environment, false, now);
    }

    method FlushStaging(target: nat, ladder: bool, query: Query, a: Answers, now: int)
        returns (failure: Option<Failure>, previous: Option<nat>)
      requires Valid() && target in rows && rows[target].status != DEPLOYED
      requires Findable(rows, target, query)
      modifies this`rows, this`history, this`loaded
      ensures Finds(old(rows), target, query, previous)
      ensures failure == DeployFailure(options, a, old(rows), target, previous)
      ensures failure == Some(SmokeFailed) ==> Clean()
      ensures failure == None ==>
                && rows == After(Stage(ladder), target, previous, old(rows))
                     && StagedBeside(old(rows), target, previous, rows)
                && Distinct(rows) && OneDeployed(rows)
                && history == old(history) + [HistoryRow(old(rows)[target], StagingEnvironment, now)]
      ensures Resident(old(rows), old(loaded)) ==>
                && (failure == None ==>
                     (Resident(rows, loaded) <==> (previous.Some? ==> previous.value in old(loaded) && !a.unloads)))
                && (Resident(old(rows), loaded) <==> !(failure == None && Drops(old(rows), a, previous)))
    {
      failure, previous := StageDeploy(target, query, a, now);
      if failure == None {
        StrandedExactly(old(rows), old(loaded), loaded, a, target, previous);
        StagedIsCommitted(old(rows), ladder, target, previous, rows);
        StagedServes(old(rows), old(loaded), target, previous, rows, loaded, a);
      }
    }

    // A staging inside an endpoint that has passed its guard.
    method StageAndCommit(target: nat, ladder: bool, query: Query, a: Answers, now: int)
        returns (response: Response, ghost previous: Option<nat>)
      requires Valid() && target in rows && rows[target].status != DEPLOYED
      requires Findable(rows, target, query)
      modifies this
      ensures Valid() && savedNotices == old(savedNotices)
      ensures Finds(old(rows), target, query, previous)
      ensures response == Answer(DeployFailure(options, a, old(rows), target, previous), false, a.commits)
      ensures response == Success ==>
                && a.commits && a.lockFree && a.checksumOk && a.loads
                && (options.servedBase.Some? ==> old(rows)[target].base == options.servedBase.value)
                && (options.smokeTest ==> a.generated.Some? && a.generated.value >= options.minChars)
      ensures response == Success ==>
                && savedRows == After(Stage(ladder), target, previous, old(savedRows))
                && StagedBeside(old(savedRows), target, previous, savedRows)
                && savedDecisions
                     == old(savedDecisions) + DecisionsOf(Stage(ladder), target, old(savedRows)[target], previous)
                && savedHistory == old(savedHistory) + [HistoryRow(old(savedRows)[target], StagingEnvironment, now)]
      ensures response != Success ==>
                savedRows == old(savedRows) && savedHistory == old(savedHistory)
                  && savedDecisions == old(savedDecisions)
      ensures old(Serving()) && response == Success ==>
                (Serving() <==> (previous.Some? ==> previous.value in old(loaded) && !a.unloads))
      ensures old(Serving()) && response != Success ==> (Serving() <==> !Stranded(response, a, old(rows), previous))
    {
      var seen := rows[target];
      var failure, found := FlushStaging(target, ladder, query, a, now);
      previous := found;
      response := EndOperation(failure, target, DecisionsOf(Stage(ladder), target, seen, found), false, a);
      SucceedsExactly(options, a, old(rows), target, found, false);
    }

    // Both ways into staging: the ladder step, and the deploy endpoint with the staging environment.
    // Production's adapter is the one thing staging does not give back: afterwards every DEPLOYED version
    // is served exactly when the version given the pointer back still has its adapter.
    method DeployToStaging(target: nat, ladder: bool, query: Query, a: Answers, now: int)
        returns (response: Response, ghost previous: Option<nat>)
      requires Valid() && target in rows
      requires Findable(rows, target, query)
      modifies this
      ensures Valid() && savedNotices == old(savedNotices)
      ensures response == if !Allowed(options.gate, Stage(ladder), old(rows)[target]) then NotAllowed
                          else Answer(DeployFailure(options, a, old(rows), target, previous), false, a.commits)
      ensures response != NotAllowed ==> Finds(old(rows), target, query, previous)
      ensures response == Success ==>
                && a.commits && a.lockFree && a.checksumOk && a.loads
                && (options.servedBase.Some? ==> old(rows)[target].base == options.servedBase.value)
                && (options.smokeTest ==> a.generated.Some? && a.generated.value >= options.minChars)
      ensures response == NotAllowed <==>
                old(rows)[target].status != EVALUATED && (ladder || old(rows)[target].status != STAGING)
      ensures response == Success ==>
                && StagedBeside(old(savedRows), target, previous, savedRows)
                && savedDecisions
                   == old(savedDecisions)
                      + if ladder then [Decision(target, STAGING_DECISION, old(rows)[target].status, None, None)]
                        else []
      ensures response == Success ==>
                && savedRows == After(Stage(ladder), target, previous, old(savedRows))
                && (query.Fresh? ==> savedRows == old(savedRows)[target := old(savedRows)[target].(status := STAGING)])
                && savedDecisions
                     == old(savedDecisions) + DecisionsOf(Stage(ladder), target, old(savedRows)[target], previous)
                && savedHistory == old(savedHistory) + [HistoryRow(old(savedRows)[target], StagingEnvironment, now)]
      ensures response != Success ==>
                savedRows == old(savedRows) && savedHistory == old(savedHistory)
                  && savedDecisions == old(savedDecisions)
      ensures old(Serving()) && response == Success ==>
                (Serving() <==> (previous.Some? ==> previous.value in old(loaded) && !a.unloads))
      ensures old(Serving()) && response != Success ==>
                (Serving() <==> !Stranded(response, a, old(rows), previous))
    {
      previous := None;
      var status := rows[target].status;
      if !(status == EVALUATED || (!ladder && status == STAGING)) { return NotAllowed, None; }
      response, previous := StageAndCommit(target, ladder, query, a, now);
      if response == Success && query.Fresh? { FreshStaging(old(savedRows), target, previous, savedRows); }
    }

    // A finished training run becomes the next version of its model.
    method RegisterModelVersion(id: nat, m: string, base: string) returns (version: nat)
      requires Valid() && id !in rows
      modifies this
      ensures Valid() && loaded == old(loaded) && (old(Serving()) ==> Serving())
      ensures savedRows == old(savedRows)[id := Row(m, version, base, REGISTERED, NO_SIGNALS)]
      ensures version >= 1 && forall j :: j in old(rows) && old(rows)[j].model == m ==> old(rows)[j].version < version
      ensures version > 1 ==>
                exists j :: j in old(rows) && old(rows)[j].model == m && old(rows)[j].version == version - 1
      ensures savedHistory == old(savedHistory) && savedDecisions == old(savedDecisions)
                && savedNotices == old(savedNotices)
    {
      var latest := LatestVersion(m);
      version := latest + 1;
      rows := rows[id := Row(m, version, base, REGISTERED, NO_SIGNALS)];
      CommitSession();
    }

    method LatestVersion(m: string) returns (latest: nat)
      ensures forall j :: j in rows && rows[j].model == m ==> rows[j].version <= latest
      ensures latest > 0 ==> exists j :: j in rows && rows[j].model == m && rows[j].version == latest
    {
      latest := 0;
      var left := rows.Keys;
      while left != {}
        invariant left <= rows.Keys
        invariant forall j :: j in rows && j !in left && rows[j].model == m ==> rows[j].version <= latest
        invariant latest > 0 ==> exists j :: j in rows && rows[j].model == m && rows[j].version == latest
        decreases left
      {
        var j :| j in left;
        if rows[j].model == m && rows[j].version > latest { latest := rows[j].version; }
        left := left - {j};
      }
    }

    // `create_decision`: promotion must clear the evaluation gate, rejection need not.
    method CreateDecision(target: nat, promote: bool) returns (response: Response)
      requires Valid() && target in rows
      modifies this
      ensures Valid() && loaded == old(loaded) && (old(Serving()) ==> Serving())
      ensures response == NotAllowed <==> old(rows)[target].status != EVALUATED
      ensures response == GateBlocked <==> old(rows)[target].status == EVALUATED && promote
                                           && GateReasons(options.gate, old(rows)[target].signals) != []
      ensures response == Success <==> Allowed(options.gate, Decide(promote), old(rows)[target])
      ensures savedHistory == old(savedHistory) && savedNotices == old(savedNotices)
      ensures response == Success ==>
                var row := old(rows)[target];
                && savedRows == old(savedRows)[target := row.(status := if promote then PROMOTED else REJECTED)]
                && savedDecisions
                   == old(savedDecisions) + [Decision(target, if promote then PROMOTED_DECISION else REJECTED_DECISION,
                                                      EVALUATED, Some(row.signals), None)]
      ensures response == Success ==>
                && savedRows == After(Decide(promote), target, None, old(savedRows))
                && savedDecisions
                     == old(savedDecisions) + DecisionsOf(Decide(promote), target, old(savedRows)[target], None)
      ensures response != Success ==> savedRows == old(savedRows) && savedDecisions == old(savedDecisions)
    {
      var row := rows[target];
      if row.status != EVALUATED { return NotAllowed; }
      if promote {
        var reasons := GateReasons(options.gate, row.signals);
        if reasons != [] { return GateBlocked; }
      }
      SingleIsCommitted(rows, Decide(promote), target);
      decisions := decisions + [Decision(target, if promote then PROMOTED_DECISION else REJECTED_DECISION, row.status,
                                         Some(row.signals), None)];
      rows := rows[target := row.(status := if promote then PROMOTED else REJECTED)];
      CommitSession();
      response := Success;
    }

    method ValidateStagingStep(target: nat) returns (response: Response)
      requires Valid() && target in rows
      modifies this
      ensures Valid() && loaded == old(loaded) && (old(Serving()) ==> Serving())
      ensures response == if old(rows)[target].status == STAGING then Success else NotAllowed
      ensures savedHistory == old(savedHistory) && savedNotices == old(savedNotices)
      ensures response == Success ==>
                var row := old(rows)[target];
                && savedRows == old(savedRows)[target := row.(status := VALIDATED)]
                && savedDecisions
                   == old(savedDecisions) + [Decision(target, VALIDATED_DECISION, STAGING, Some(row.signals), None)]
      ensures response == Success ==>
                && savedRows == After(ValidateStaging, target, None, old(savedRows))
                && savedDecisions
                     == old(savedDecisions) + DecisionsOf(ValidateStaging, target, old(savedRows)[target], None)
      ensures response != Success ==> savedRows == old(savedRows) && savedDecisions == old(savedDecisions)
    {
      var row := rows[target];
      if row.status != STAGING { return NotAllowed; }
      SingleIsCommitted(rows, ValidateStaging, target);
      rows := rows[target := row.(status := VALIDATED)];
      decisions := decisions + [Decision(target, VALIDATED_DECISION, row.status, Some(row.signals), None)];
      CommitSession();
      response := Success;
    }

    // Field by field, a value given replaces the one held.
    method MergeGiven(held: Signals, update: Signals) returns (signals: Signals)
      ensures signals == Merge(held, update) == Updated(held, update)
    {
      signals := held;
      if update.evalSetId.Some? { signals := signals.(evalSetId := update.evalSetId); }
      if update.evalSetVersion.Some? { signals := signals.(evalSetVersion := update.evalSetVersion); }
      if update.loss.Some? { signals := signals.(loss := update.loss); }
      if update.qualitative.Some? { signals := signals.(qualitative := update.qualitative); }
      if update.regressions.Some? { signals := signals.(regressions := update.regressions); }
    }

    // Merges what is given and makes the version EVALUATED once all three signals are there.
    method SubmitEvaluation(target: nat, update: Signals)
      requires Valid() && target in rows
      modifies this
      ensures Valid() && loaded == old(loaded) && (old(Serving()) ==> Serving())
      ensures savedRows == After(Evaluate(update), target, None, old(savedRows))
                && savedDecisions == old(savedDecisions)
      ensures savedHistory == old(savedHistory) && savedNotices == old(savedNotices)
      ensures var row := old(rows)[target];
              var signals := Updated(row.signals, update);
              var complete := signals.loss.Some? && signals.qualitative.Some? && signals.regressions.Some?;
              savedRows == old(savedRows)[target := row.(signals := signals,
                                                         status := if row.status == REGISTERED && complete
                                                           then EVALUATED
                                                                   else row.status)]
    {
      var signals := MergeGiven(rows[target].signals, update);
      var status := rows[target].status;
      if Complete(signals) && status == REGISTERED { status := EVALUATED; }
      SingleIsCommitted(rows, Evaluate(update), target);
      SingleKeeps(rows, target, rows[target].(status := status, signals := signals), loaded);
      rows := rows[target := rows[target].(status := status, signals := signals)];
      CommitSession();
    }

    method ArchiveModelVersion(target: nat) returns (ok: bool)
      requires Valid() && target in rows
      modifies this
      ensures Valid() && loaded == old(loaded) && (old(Serving()) ==> Serving())
      ensures ok <==> Allowed(options.gate, Archive, old(rows)[target])
      ensures ok <==> old(rows)[target].status in {PROMOTED, RETIRED}
      ensures savedRows == if ok then old(savedRows)[target := old(rows)[target].(status := ARCHIVED)]
                else old(savedRows)
      ensures savedHistory == old(savedHistory) && savedDecisions == old(savedDecisions)
      ensures savedRows == if ok then After(Archive, target, None, old(savedRows)) else old(savedRows)
    {
      ok := rows[target].status == PROMOTED || rows[target].status == RETIRED;
      if ok {
        SingleIsCommitted(rows, Archive, target);
        rows := rows[target := rows[target].(status := ARCHIVED)];
        CommitSession();
      }
    }

    method UnarchiveModelVersion(target: nat, to: Status) returns (ok: bool)
      requires Valid() && target in rows
      modifies this
      ensures Valid() && loaded == old(loaded) && (old(Serving()) ==> Serving())
      ensures ok <==> Allowed(options.gate, Unarchive(to), old(rows)[target])
      ensures ok <==> old(rows)[target].status == ARCHIVED && to in {PROMOTED, REJECTED, RETIRED}
      ensures savedRows == if ok then old(savedRows)[target := old(rows)[target].(status := to)] else old(savedRows)
      ensures savedHistory == old(savedHistory) && savedDecisions == old(savedDecisions)
      ensures savedRows == if ok then After(Unarchive(to), target, None, old(savedRows)) else old(savedRows)
    {
      ok := rows[target].status == ARCHIVED && to in {PROMOTED, REJECTED, RETIRED};
      if ok {
        SingleIsCommitted(rows, Unarchive(to), target);
        rows := rows[target := rows[target].(status := to)];
        CommitSession();
      }
    }
  }

  // Updating one row to a status other than DEPLOYED, or leaving its status, keeps the table valid.
  lemma SingleKeeps(rows: Rows, target: nat, row: Row, loaded: set<nat>)
    requires target in rows && row.model == rows[target].model && row.version == rows[target].version
    requires row.status == DEPLOYED ==> rows[target].status == DEPLOYED
    ensures OneDeployed(rows) ==> OneDeployed(rows[target := row])
    ensures Distinct(rows) ==> Distinct(rows[target := row])
    ensures Resident(rows, loaded) ==> Resident(rows[target := row], loaded)
  {
  }

  // Archive and unarchive are inverse on every version they apply to.
  lemma ArchiveRoundTrip(cfg: Settings, rows: Rows, target: nat)
    requires target in rows && Allowed(cfg, Archive, rows[target])
    ensures var archived := After(Archive, target, None, rows);
            && Allowed(cfg, Unarchive(rows[target].status), archived[target])
            && After(Unarchive(rows[target].status), target, None, archived) == rows
  {
    SingleIsCommitted(rows, Archive, target);
    var archived := After(Archive, target, None, rows);
    SingleIsCommitted(archived, Unarchive(rows[target].status), target);
  }

  lemma SingleIsCommitted(rows: Rows, op: Op, target: nat)
    requires target in rows && !MovesPointer(op)
    ensures After(op, target, None, rows)
            == rows[target :=
              rows[target].(status := if Final(op, rows[target]).Some? then Final(op, rows[target]).value
                                                      else rows[target].status,
                                            signals := if op.Evaluate? then Merge(rows[target].signals, op.update)
                                                       else rows[target].signals)]
  {
    var tx := Tx(op, target, rows[target], true, None, |Plan(op, target, rows[target], None)|);
    forall id | id in rows
      ensures id != target ==> Committed(rows, tx)[id] == rows[id]
      ensures id == target ==>
                Committed(rows, tx)[id].status == if Final(op, rows[target]).Some? then Final(op, rows[target]).value
                                                                 else rows[target].status
    {
      CommittedRow(rows, tx, id);
    }
  }

  // The table after the whole transaction of an operation.
  function After(op: Op, target: nat, previous: Option<nat>, rows: Rows): Rows
    requires target in rows
  {
    Committed(rows, Tx(op, target, rows[target], true, previous, |Plan(op, target, rows[target], previous)|))
  }

  lemma MovedIsCommitted(rows: Rows, op: Op, target: nat, previous: Option<nat>, rows': Rows)
    requires PointedTo(rows, target, previous, rows') && MovesPointer(op) && !op.Stage?
    requires previous.Some? ==> previous.value != target
    ensures rows' == After(op, target, previous, rows)
  {
    var tx := Tx(op, target, rows[target], true, previous, |Plan(op, target, rows[target], previous)|);
    forall id | id in rows ensures rows'[id] == Committed(rows, tx)[id] { CommittedRow(rows, tx, id); }
  }

  lemma MovedServes(rows: Rows, target: nat, previous: Option<nat>, rows': Rows, loaded: set<nat>, loaded': set<nat>)
    requires PointedTo(rows, target, previous, rows') && Distinct(rows) && target in loaded'
    requires previous.Some? ==> previous.value != target
    requires forall id :: id != target && previous != Some(id) ==> (id in loaded' <==> id in loaded)
    ensures Distinct(rows') && (Resident(rows, loaded) ==> Resident(rows', loaded'))
  {
    forall i, j | i in rows' && j in rows' && rows'[i].model == rows'[j].model && rows'[i].version == rows'[j].version
      ensures i == j
    {
      SameVersion(rows, target, previous, rows', i);
      SameVersion(rows, target, previous, rows', j);
    }
  }

  lemma SameVersion(rows: Rows, target: nat, previous: Option<nat>, rows': Rows, id: nat)
    requires PointedTo(rows, target, previous, rows') && id in rows
    ensures rows'[id].model == rows[id].model && rows'[id].version == rows[id].version
  {
  }

  lemma StagedIsCommitted(rows: Rows, ladder: bool, target: nat, previous: Option<nat>, rows': Rows)
    requires StagedBeside(rows, target, previous, rows') && (previous.Some? ==> previous.value != target)
    ensures rows' == After(Stage(ladder), target, previous, rows)
  {
    var op := Stage(ladder);
    var tx := Tx(op, target, rows[target], true, previous, |Plan(op, target, rows[target], previous)|);
    forall id | id in rows ensures rows'[id] == Committed(rows, tx)[id] {
      CommittedRow(rows, tx, id);
    }
  }

  lemma FreshStaging(rows: Rows, target: nat, previous: Option<nat>, rows': Rows)
    requires StagedBeside(rows, target, previous, rows')
    requires forall j: nat :: DeployedIn(rows, j, rows[target].model) <==> previous == Some(j)
    ensures rows' == rows[target := rows[target].(status := STAGING)]
  {
    assert previous.Some? ==> DeployedIn(rows, previous.value, rows[target].model);
  }

  lemma StagedDistinct(rows: Rows, target: nat, previous: Option<nat>, rows': Rows)
    requires StagedBeside(rows, target, previous, rows') && Distinct(rows)
    ensures Distinct(rows')
  {
    forall id | id in rows ensures rows'[id].model == rows[id].model && rows'[id].version == rows[id].version {
      assert id == target || previous == Some(id) || rows'[id] == rows[id];
    }
  }

  lemma StagedServes(rows: Rows, loaded: set<nat>, target: nat, previous: Option<nat>, rows': Rows, loaded': set<nat>,
      a: Answers)
    requires StagedBeside(rows, target, previous, rows') && (previous.Some? ==> previous.value != target)
    requires loaded' == (loaded + {target}) - Dropped(a, previous)
    ensures Resident(rows, loaded) ==>
              (Resident(rows', loaded') <==> (previous.Some? ==> previous.value in loaded && !a.unloads))
  {
    if previous.Some? { assert rows'[previous.value].status == DEPLOYED; }
  }

  // After a failing commit the rows are as before, but the unload is not undone.
  lemma StrandedExactly(rows: Rows, loaded: set<nat>, loaded': set<nat>, a: Answers, target: nat, previous: Option<nat>)
    requires previous.Some? ==> previous.value in rows && previous.value != target
    requires loaded' == (loaded + {target}) - Dropped(a, previous)
    ensures Resident(rows, loaded) ==> (Resident(rows, loaded') <==> !Drops(rows, a, previous))
  {
  }

  // A failed deploy leaves production's adapter loaded: only the target's and, after a conflict, the
  // overtaken version's adapter may be gone, and neither of these is DEPLOYED.
  lemma KeepsServing(rows: Rows, loaded: set<nat>, target: nat, previous: Option<nat>, loaded': set<nat>,
      conflict: bool)
    requires OneDeployed(rows) && target in rows && rows[target].status != DEPLOYED
    requires previous.Some? ==> previous.value in rows && rows[previous.value].model == rows[target].model
    requires conflict ==> exists j: nat :: DeployedIn(rows, j, rows[target].model) && j != target && previous != Some(j)
    requires forall id :: id != target && previous != Some(id) ==> (id in loaded' <==> id in loaded)
    requires !conflict && previous.Some? ==> (previous.value in loaded' <==> previous.value in loaded)
    ensures Resident(rows, loaded) ==> Resident(rows, loaded')
  {
    if conflict && previous.Some? {
      var j: nat :| DeployedIn(rows, j, rows[target].model) && j != target && previous != Some(j);
      assert rows[previous.value].status != DEPLOYED;
    }
  }

  lemma OnlyPrevious(rows: Rows, target: nat, previous: Option<nat>)
    requires OneDeployed(rows) && target in rows && rows[target].status != DEPLOYED
    requires previous.Some? ==> DeployedIn(rows, previous.value, rows[target].model)
    requires previous == None ==> forall j :: DeployedIn(rows, j, rows[target].model) ==> j == target
    ensures forall j: nat :: DeployedIn(rows, j, rows[target].model) <==> previous == Some(j)
  {
  }

  // ----- Staging and production -----

  // Staging is transparent: across it, `get_deployment_status` and the `prod` alias answer the same
  // for every model, though the history has grown by the candidate's row.
  lemma StagingIsTransparent(rows: Rows, history: seq<Deployment>, target: nat, now: int, m: string,
      st: DeploymentStatus)
    requires Distinct(rows) && target in rows && rows[target].status != DEPLOYED
    ensures var rows' := rows[target := rows[target].(status := STAGING)];
            var history' := history + [HistoryRow(rows[target], StagingEnvironment, now)];
            IsStatus(rows', history', m, st) <==> IsStatus(rows, history, m, st)
  {
    var rows' := rows[target := rows[target].(status := STAGING)];
    var row := HistoryRow(rows[target], StagingEnvironment, now);
    assert (history + [row])[..|history|] == history;
    assert forall id :: DeployedIn(rows', id, m) <==> DeployedIn(rows, id, m);
    forall id | DeployedIn(rows, id, m)
      ensures rows'[id] == rows[id]
                && DeployedAt(history + [row], m, rows[id].version) == DeployedAt(history, m, rows[id].version)
    {
      assert rows[id].model == rows[target].model && rows[id].version == rows[target].version ==> id == target;
    }
  }

  // There is one answer, whatever the tables hold.
  lemma StatusIsUnique(rows: Rows, history: seq<Deployment>, m: string, a: DeploymentStatus, b: DeploymentStatus)
    requires OneDeployed(rows) && IsStatus(rows, history, m, a) && IsStatus(rows, history, m, b)
    ensures a == b
    ensures a.version.Some? <==> exists id :: DeployedIn(rows, id, m)
  {
  }

  // ----- The serial endpoints are lone transactions of the protocol -----

  ghost predicate Follows(cfg: Settings, s: State, l: Label, s': State) { Enabled(cfg, s, l) && s' == Apply(cfg, s, l) }

  ghost predicate Path(cfg: Settings, states: seq<State>, labels: seq<Label>) {
    |states| == |labels| + 1 && forall i :: 0 <= i < |labels| ==> Follows(cfg, states[i], labels[i], states[i + 1])
  }

  ghost predicate RunsTo(cfg: Settings, from: State, to: State) {
    exists states: seq<State>, labels: seq<Label> ::
      Path(cfg, states, labels) && states[0] == from && states[|labels|] == to
  }

  lemma RunsZero(cfg: Settings, s: State)
    ensures RunsTo(cfg, s, s)
  {
    var states, labels: seq<Label> := [s], [];
    assert Path(cfg, states, labels) && states[|labels|] == s;
  }

  lemma RunsOneMore(cfg: Settings, from: State, s: State, l: Label)
    requires RunsTo(cfg, from, s) && Enabled(cfg, s, l)
    ensures RunsTo(cfg, from, Apply(cfg, s, l))
  {
    var states: seq<State>, labels: seq<Label> :| Path(cfg, states, labels) && states[0] == from
      && states[|labels|] == s;
    var s' := Apply(cfg, s, l);
    assert Follows(cfg, s, l, s');
    PathExtends(cfg, states, labels, l, s');
    assert (states + [s'])[0] == from && (states + [s'])[|labels + [l]|] == s';
  }

  lemma PathExtends(cfg: Settings, states: seq<State>, labels: seq<Label>, l: Label, s': State)
    requires Path(cfg, states, labels) && Follows(cfg, states[|labels|], l, s')
    ensures Path(cfg, states + [s'], labels + [l])
  {
    var states', labels' := states + [s'], labels + [l];
    forall i | 0 <= i < |labels'| ensures Follows(cfg, states'[i], labels'[i], states'[i + 1]) {
      if i < |labels| { assert Follows(cfg, states[i], labels[i], states[i + 1]); }
    }
  }

  // The only open transaction, past its query.
  ghost predicate Alone(cfg: Settings, s: State, t: nat) {
    && s.open.Keys == {t} && OneDeployed(s.rows) && TxOk(cfg, s.rows, s.open[t])
    && (MovesPointer(s.open[t].op) ==> s.open[t].located && IsPrevious(s.rows, s.open[t], s.open[t].previous))
  }

  function AllSent(s: State, t: nat): State
    requires t in s.open
  {
    s.(open := s.open[t := s.open[t].(sent := |PlanOf(s.open[t])|)])
  }

  lemma SendKeepsAlone(cfg: Settings, s: State, t: nat)
    requires Alone(cfg, s, t) && s.open[t].sent < |PlanOf(s.open[t])|
    ensures Enabled(cfg, s, Send(t)) && Alone(cfg, Sending(s, t), t)
    ensures Sending(s, t).open[t] == s.open[t].(sent := s.open[t].sent + 1)
    ensures AllSent(Sending(s, t), t) == AllSent(s, t)
  {
    AloneGoesThrough(cfg, s, t);
    TxOkSent(cfg, s.rows, s.open[t]);
    var s' := Sending(s, t);
    assert AllSent(s', t).open == AllSent(s, t).open;
  }

  // Alone, each of its updates goes through.
  lemma {:induction false} SendsAll(cfg: Settings, from: State, s: State, t: nat)
    requires RunsTo(cfg, from, s) && Alone(cfg, s, t)
    ensures RunsTo(cfg, from, AllSent(s, t))
    decreases |PlanOf(s.open[t])| - s.open[t].sent
  {
    if s.open[t].sent < |PlanOf(s.open[t])| {
      SendKeepsAlone(cfg, s, t);
      RunsOneMore(cfg, from, s, Send(t));
      SendsAll(cfg, from, Sending(s, t), t);
    } else {
      assert AllSent(s, t).open == s.open;
    }
  }

  lemma AloneGoesThrough(cfg: Settings, s: State, t: nat)
    requires Alone(cfg, s, t) && s.open[t].sent < |PlanOf(s.open[t])|
    ensures Ready(s, t) && !Breaks(s, t)
  {
    var tx := s.open[t];
    OnlyMovesDeploy(cfg, tx);
    PlanTouchesOwn(tx);
    if PlanOf(tx)[tx.sent].status == Some(DEPLOYED) {
      ClaimView(s.rows, tx);
      BreaksMeans(s, t);
    }
  }

  lemma PlanTouchesOwn(tx: Tx)
    requires tx.sent < |PlanOf(tx)|
    ensures PlanOf(tx)[tx.sent].id == tx.target || tx.previous == Some(PlanOf(tx)[tx.sent].id)
  {
  }

  // An endpoint's effect is that of the protocol's transaction run from begin to commit with nobody
  // else about - so everything proved of all overlapping runs holds of the serial ones.
  lemma EndpointIsProtocolRun(cfg: Settings, rows: Rows, decisions: seq<Decision>, op: Op, target: nat,
      previous: Option<nat>)
    requires OneDeployed(rows) && target in rows && Allowed(cfg, op, rows[target])
    requires if MovesPointer(op) then IsPrevious(rows, Tx(op, target, rows[target], false, None, 0), previous)
               else previous == None
    ensures RunsTo(cfg, State(rows, map[], decisions),
                   State(After(op, target, previous, rows), map[],
                     decisions + DecisionsOf(op, target, rows[target], previous)))
  {
    var tx := Tx(op, target, rows[target], MovesPointer(op), previous, 0);
    Opens(cfg, rows, decisions, tx);
    var s := State(rows, map[0 := tx], decisions);
    SendsAll(cfg, State(rows, map[], decisions), s, 0);
    assert AllSent(s, 0).open == map[0 := tx.(sent := |PlanOf(tx)|)];
    Closes(cfg, rows, decisions, tx.(sent := |PlanOf(tx)|));
  }

  lemma Opens(cfg: Settings, rows: Rows, decisions: seq<Decision>, tx: Tx)
    requires OneDeployed(rows) && tx.target in rows && tx.seen == rows[tx.target] && Allowed(cfg, tx.op, tx.seen)
               && tx.sent == 0
    requires tx.located == MovesPointer(tx.op)
    requires if MovesPointer(tx.op) then IsPrevious(rows, tx.(located := false, previous := None), tx.previous)
               else tx.previous == None
    ensures RunsTo(cfg, State(rows, map[], decisions), State(rows, map[0 := tx], decisions))
    ensures Alone(cfg, State(rows, map[0 := tx], decisions), 0)
  {
    var s0 := State(rows, map[], decisions);
    var begun := tx.(located := false, previous := None);
    var s1 := State(rows, map[0 := begun], decisions);
    RunsZero(cfg, s0);
    RunsOneMore(cfg, s0, s0, Begin(0, tx.op, tx.target));
    assert s0.open[0 := begun] == map[0 := begun];
    if MovesPointer(tx.op) {
      RunsOneMore(cfg, s0, s1, Locate(0, tx.previous));
      assert s1.open[0 := tx] == map[0 := tx];
    }
  }

  lemma Closes(cfg: Settings, rows: Rows, decisions: seq<Decision>, tx: Tx)
    requires tx.target in rows && tx.seen == rows[tx.target] && tx.sent == |PlanOf(tx)|
               && (MovesPointer(tx.op) ==> tx.located)
    requires RunsTo(cfg, State(rows, map[], decisions), State(rows, map[0 := tx], decisions))
    ensures RunsTo(cfg, State(rows, map[], decisions),
                   State(After(tx.op, tx.target, tx.previous, rows), map[],
                         decisions + DecisionsOf(tx.op, tx.target, tx.seen, tx.previous)))
  {
    var s := State(rows, map[0 := tx], decisions);
    RunsOneMore(cfg, State(rows, map[], decisions), s, Commit(0));
    assert s.open - {0} == map[];
    SameOverlay(rows, tx, After(tx.op, tx.target, tx.previous, rows));
  }

  // `located` plays no part in what is committed.
  lemma SameOverlay(rows: Rows, tx: Tx, after: Rows)
    requires tx.target in rows && tx.seen == rows[tx.target] && tx.sent == |PlanOf(tx)|
    requires after == After(tx.op, tx.target, tx.previous, rows)
    ensures Committed(rows, tx) == after
  {
    var same := Tx(tx.op, tx.target, tx.seen, true, tx.previous, tx.sent);
    assert PlanOf(same) == PlanOf(tx) && Overlay(same) == Overlay(tx);
    assert forall id :: id in rows ==> Shown(rows, same, id) == Shown(rows, tx, id);
  }
}
