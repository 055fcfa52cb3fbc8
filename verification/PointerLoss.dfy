/** A run of overlapping release transactions that takes a model's pointer away. */
module PointerLoss {
  import opened Wrappers
  import opened Releases
  import opened ReleaseProtocol

  ghost predicate Reaches(cfg: Settings, s: State) {
    exists states: seq<State>, labels: seq<Label> :: IsRun(cfg, states, labels) && states[|labels|] == s
  }

  lemma ExtendRun(cfg: Settings, states: seq<State>, labels: seq<Label>, l: Label)
    requires IsRun(cfg, states, labels) && Enabled(cfg, states[|labels|], l)
    ensures IsRun(cfg, states + [Apply(cfg, states[|labels|], l)], labels + [l])
  {
    var states', labels' := states + [Apply(cfg, states[|labels|], l)], labels + [l];
    forall i | 0 <= i < |labels'|
      ensures Enabled(cfg, states'[i], labels'[i]) && states'[i + 1] == Apply(cfg, states'[i], labels'[i])
    {
      if i < |labels| { assert states'[i + 1] == states[i + 1]; }
    }
  }

  lemma Extend(cfg: Settings, s: State, l: Label) returns (s': State)
    requires Reaches(cfg, s) && Enabled(cfg, s, l)
    ensures Reaches(cfg, s') && s' == Apply(cfg, s, l)
  {
    s' := Apply(cfg, s, l);
    var states: seq<State>, labels: seq<Label> :| IsRun(cfg, states, labels) && states[|labels|] == s;
    ExtendRun(cfg, states, labels, l);
    assert (states + [s'])[|labels + [l]|] == s';
  }

  // One version, and no open transaction has flushed anything.
  ghost predicate Quiet(s: State, c: nat) {
    s.rows.Keys == {c} && forall u :: u in s.open ==> s.open[u].sent == 0
  }

  lemma QuietIsFree(s: State, c: nat, t: nat)
    requires Quiet(s, c)
    ensures RowFree(s.open, t, c) && KeyFree(s.rows, s.open, t, s.rows[c].model)
  {
    forall u | u in s.open ensures Overlay(s.open[u]) == map[] {
      assert Effect(PlanOf(s.open[u]), 0) == map[];
    }
  }

  // A transaction begun and, when it moves the pointer, past a query that found nothing.
  lemma Opened(cfg: Settings, s: State, t: nat, op: Op, c: nat) returns (s': State)
    requires Reaches(cfg, s) && Quiet(s, c) && t !in s.open && Allowed(cfg, op, s.rows[c])
    ensures Reaches(cfg, s') && Quiet(s', c) && s'.rows == s.rows
    ensures s'.open == s.open[t := Tx(op, c, s.rows[c], MovesPointer(op), None, 0)]
  {
    s' := Extend(cfg, s, Begin(t, op, c));
    if MovesPointer(op) {
      assert IsPrevious(s'.rows, s'.open[t], None);
      s' := Extend(cfg, s', Locate(t, None));
    }
  }

  // A lone operation that is no staging, on the only version there is.
  lemma Solo(cfg: Settings, s: State, t: nat, op: Op, c: nat) returns (s': State)
    requires Reaches(cfg, s) && Quiet(s, c) && t !in s.open && Allowed(cfg, op, s.rows[c]) && !op.Stage?
    ensures Reaches(cfg, s') && Quiet(s', c) && s'.open == s.open && s'.rows[c].model == s.rows[c].model
    ensures Final(op, s.rows[c]).Some? ==> s'.rows[c].status == Final(op, s.rows[c]).value
    ensures s'.rows[c].signals == if op.Evaluate? then Merge(s.rows[c].signals, op.update) else s.rows[c].signals
  {
    var s1 := Opened(cfg, s, t, op, c);
    var s2 := OneSend(cfg, s1, t, c);
    s' := Extend(cfg, s2, Commit(t));
    CommittedRow(s2.rows, s2.open[t], c);
    assert s'.open == s.open;
  }

  lemma OneSend(cfg: Settings, s: State, t: nat, c: nat) returns (s': State)
    requires Reaches(cfg, s) && Quiet(s, c) && t in s.open && s.open[t].target == c && !s.open[t].op.Stage?
    requires s.open[t].located == MovesPointer(s.open[t].op) && s.open[t].previous == None
    ensures Reaches(cfg, s') && s'.rows == s.rows && s'.open == s.open[t := s.open[t].(sent := 1)]
    ensures |PlanOf(s'.open[t])| == 1
  {
    assert |PlanOf(s.open[t])| == 1 && PlanOf(s.open[t])[0].id == c;
    QuietIsFree(s, c, t);
    s' := Extend(cfg, s, Send(t));
  }

  const GOOD := Signals(Some(Loss(0.0, None)), Some(Comparison(1, 0)), Some(0), Some("eval"), Some(1))

  lemma EvaluatedWell(cfg: Settings, c: nat, row: Row) returns (s: State)
    requires row.status == REGISTERED
    ensures Reaches(cfg, s) && Quiet(s, c) && s.open == map[]
    ensures s.rows[c].model == row.model && s.rows[c].status == EVALUATED && GateReasons(cfg, s.rows[c].signals) == []
  {
    var none: seq<Label> := [];
    assert IsRun(cfg, [INIT], none) && [INIT][|none|] == INIT;
    s := Extend(cfg, INIT, Register(c, row));
    s := Solo(cfg, s, 0, Evaluate(GOOD), c);
  }

  // A version whose staging has begun, and which meanwhile has been promoted and deployed.
  lemma DeployedMeanwhile(cfg: Settings, c: nat, row: Row) returns (s: State)
    requires row.status == REGISTERED
    ensures Reaches(cfg, s) && Quiet(s, c) && s.rows[c].model == row.model && s.rows[c].status == DEPLOYED
    ensures s.open.Keys == {1} && s.open[1].op == Stage(true) && s.open[1].target == c
              && s.open[1].seen.model == row.model
    ensures s.open[1].located && s.open[1].previous == None
  {
    var s1 := EvaluatedWell(cfg, c, row);
    var s2 := Opened(cfg, s1, 1, Stage(true), c);
    var s3 := Solo(cfg, s2, 0, Decide(true), c);
    s := Solo(cfg, s3, 0, Deploy(DefaultEnvironment), c);
  }

  // The staging loaded the version while it was EVALUATED and found no other DEPLOYED; its commit then
  // leaves the version, DEPLOYED by now, in STAGING, and the model without a pointer.
  lemma PointerLostHappens(cfg: Settings, c: nat, row: Row)
    requires row.status == REGISTERED
    ensures exists s, l :: Reaches(cfg, s) && Enabled(cfg, s, l) && l.Commit? && DeployedIn(s.rows, c, row.model)
              && NoneDeployed(Apply(cfg, s, l).rows, row.model) && Apply(cfg, s, l).rows[c].status == STAGING
  {
    var s0 := DeployedMeanwhile(cfg, c, row);
    var s1 := StagingSends(cfg, s0, c);
    CommittedRow(s1.rows, s1.open[1], c);
    assert Enabled(cfg, s1, Commit(1)) && DeployedIn(s1.rows, c, row.model);
    assert NoneDeployed(Apply(cfg, s1, Commit(1)).rows, row.model);
  }

  lemma StagingSends(cfg: Settings, s: State, c: nat) returns (s': State)
    requires Reaches(cfg, s) && Quiet(s, c) && s.open.Keys == {1} && s.open[1].op == Stage(true)
               && s.open[1].target == c
    requires s.open[1].located && s.open[1].previous == None
    ensures Reaches(cfg, s') && s'.rows == s.rows && s'.open.Keys == {1}
    ensures s'.open[1] == s.open[1].(sent := 2) && |PlanOf(s'.open[1])| == 2
  {
    assert PlanOf(s.open[1]) == [Write(c, Some(DEPLOYED)), Write(c, Some(STAGING))];
    var s1 := Extend(cfg, s, Send(1));
    s' := Extend(cfg, s1, Send(1));
  }
}
