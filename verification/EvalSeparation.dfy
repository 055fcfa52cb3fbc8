/** Keeping eval sets and validated training data apart.

    There are two checks at two different times: validation compares the data with one chosen eval set
    (H8), creating an eval set compares it with the data of every report stored so far.
    `EvalSetService` is the service as one request sees it; `SeparationProtocol` lets validations and
    eval-set creations overlap. */
module EvalSets {
  import opened Wrappers
  import opened Validation

  datatype StoredReport = StoredReport(records: seq<Rec>, against: seq<Rec>, gate: Gate)

  ghost predicate SharesContent(a: seq<Rec>, b: seq<Rec>) { exists c :: c in EvalContents(a) && c in EvalContents(b) }

  // Every user content of the reports, by report and record.
  ghost predicate SeenIn(reports: seq<StoredReport>, c: string) {
    exists k :: 0 <= k < |reports| && c in EvalContents(reports[k].records)
  }

  class EvalSetService {
    var reports: seq<StoredReport>
    var versions: map<string, seq<seq<Rec>>>   // eval set id -> record lists of versions 1, 2, ...

    constructor ()
      ensures reports == [] && versions == map[]
    {
      reports := [];
      versions := map[];
    }

    method ValidateDatasetVersion(records: seq<Rec>, against: seq<Rec>, rules: Rec -> seq<Code>, failRatio: real)
        returns (rep: Report)
      modifies this`reports
      ensures IsReport(rep, records, against, rules, failRatio)
      ensures reports == old(reports) + [StoredReport(records, against, rep.gate)]
    {
      rep := Validation.ValidateDatasetVersion(records, against, rules, failRatio);
      reports := reports + [StoredReport(records, against, rep.gate)];
    }

    // `_validated_user_contents`: a set filled in nested loops.
    method ValidatedUserContents() returns (contents: set<string>)
      ensures forall c :: c in contents <==> SeenIn(reports, c)
    {
      contents := {};
      var k := 0;
      while k < |reports|
        invariant 0 <= k <= |reports|
        invariant forall c :: c in contents <==> SeenIn(reports[..k], c)
      {
        var more := ContentsOf(reports[k].records);
        SeenGrows(reports, k);
        contents := contents + more;
        k := k + 1;
      }
      assert reports[..k] == reports;
    }

    // Refused exactly when some user content of the records is in some report; otherwise the next
    // version number of the eval set is taken.
    method CreateEvalSetVersion(id: string, records: seq<Rec>) returns (version: Option<nat>)
      modifies this`versions
      ensures version == None <==> exists k :: 0 <= k < |reports| && SharesContent(records, reports[k].records)
      ensures version == None ==> versions == old(versions)
      ensures version.Some? ==>
                var before := if id in old(versions) then old(versions)[id] else [];
                version.value == |before| + 1 && versions == old(versions)[id := before + [records]]
    {
      var validated := ValidatedUserContents();
      var own := ContentsOf(records);
      OverlapMeans(records, reports, own * validated);
      if own * validated != {} { return None; }
      var before := if id in versions then versions[id] else [];
      versions := versions[id := before + [records]];
      version := Some(|before| + 1);
    }
  }

  lemma SeenGrows(reports: seq<StoredReport>, k: nat)
    requires k < |reports|
    ensures forall c :: SeenIn(reports[..k + 1], c) <==>
              SeenIn(reports[..k], c) || c in EvalContents(reports[k].records)
  {
    forall c ensures SeenIn(reports[..k + 1], c) <==> SeenIn(reports[..k], c) || c in EvalContents(reports[k].records) {
      assert reports[..k + 1] == reports[..k] + [reports[k]];
      SeenInAppended(reports[..k], reports[k], c);
    }
  }

  lemma SeenInAppended(reports: seq<StoredReport>, last: StoredReport, c: string)
    ensures SeenIn(reports + [last], c) <==> SeenIn(reports, c) || c in EvalContents(last.records)
  {
    var b := reports + [last];
    if SeenIn(reports, c) {
      var j :| 0 <= j < |reports| && c in EvalContents(reports[j].records);
      assert b[j] == reports[j];
    }
    if c in EvalContents(last.records) {
      assert b[|reports|] == last;
    }
  }

  lemma OverlapMeans(records: seq<Rec>, reports: seq<StoredReport>, both: set<string>)
    requires forall c :: c in both <==> c in EvalContents(records) && SeenIn(reports, c)
    ensures both != {} <==> exists k :: 0 <= k < |reports| && SharesContent(records, reports[k].records)
  {
    if c :| c in both {
      var k :| 0 <= k < |reports| && c in EvalContents(reports[k].records);
      assert SharesContent(records, reports[k].records);
    }
    if k :| 0 <= k < |reports| && SharesContent(records, reports[k].records) {
      var c :| c in EvalContents(records) && c in EvalContents(reports[k].records);
      assert c in both;
    }
  }

  // A report that was checked against a record list and did not fail shares no content with it.
  lemma NotFailedIsDisjoint(rep: Report, rs: seq<Rec>, es: seq<Rec>, rules: Rec -> seq<Code>, failRatio: real)
    requires IsReport(rep, rs, es, rules, failRatio) && rep.gate != FAIL
    ensures !SharesContent(rs, es)
  {
    GateMeaning(rep, rs, es, rules, failRatio);
    forall c | c in EvalContents(rs) ensures c !in EvalContents(es) {
      InContents(rs, c);
      var i :| 0 <= i < |rs| && UserContent(rs[i]) == Some(c);
      assert Leaks(rs[i], EvalContents(es)) <==> c in EvalContents(es);
    }
  }
}

module SeparationProtocol {
  import opened Occurrences
  import opened Validation
  import opened EvalSets

  // What has been committed, in order. `checkedUpTo`: how much of the log the creation had seen when
  // it compared its records with the stored reports.
  datatype Event = Reported(report: StoredReport) | Added(records: seq<Rec>, checkedUpTo: nat)

  datatype State = State(log: seq<Event>, validating: map<nat, StoredReport>, creating: map<nat, Event>)

  datatype Label = Validate(request: nat, records: seq<Rec>, against: seq<Rec>, gate: Gate)
                 | StoreReport(request: nat)
                 | CheckEvalSet(request: nat, records: seq<Rec>)
                 | StoreEvalSet(request: nat)
                 | Drop(request: nat)

  const INIT := State([], map[], map[])

  // The gate is some verdict of the validation service on these records.
  ghost predicate IsVerdict(records: seq<Rec>, against: seq<Rec>, gate: Gate) {
    exists rep: Report, rules: Rec -> seq<Code>, ratio: real ::
      IsReport(rep, records, against, rules, ratio) && rep.gate == gate
  }

  // The creation's check: no stored report shares a user content with the records.
  ghost predicate Unseen(log: seq<Event>, records: seq<Rec>) {
    forall i :: 0 <= i < |log| && log[i].Reported? ==> !SharesContent(records, log[i].report.records)
  }

  ghost predicate Enabled(s: State, l: Label) {
    match l
    case Validate(r, records, against, gate) => r !in s.validating && IsVerdict(records, against, gate)
    case StoreReport(r) => r in s.validating
    case CheckEvalSet(r, records) => r !in s.creating && Unseen(s.log, records)
    case StoreEvalSet(r) => r in s.creating
    case Drop(_) => true
  }

  ghost function Apply(s: State, l: Label): State
    requires Enabled(s, l)
  {
    match l
    case Validate(r, records, against, gate) =>
      s.(validating := s.validating[r := StoredReport(records, against, gate)])
    case StoreReport(r) => s.(log := s.log + [Reported(s.validating[r])], validating := s.validating - {r})
    case CheckEvalSet(r, records) => s.(creating := s.creating[r := Added(records, |s.log|)])
    case StoreEvalSet(r) => s.(log := s.log + [s.creating[r]], creating := s.creating - {r})
    case Drop(r) => s.(validating := s.validating - {r}, creating := s.creating - {r})
  }

  ghost predicate IsRun(states: seq<State>, labels: seq<Label>) {
    && |states| == |labels| + 1 && states[0] == INIT
    && forall i :: 0 <= i < |labels| ==> Enabled(states[i], labels[i]) && states[i + 1] == Apply(states[i], labels[i])
  }

  // An eval set shares nothing with the reports committed before its check.
  ghost predicate CheckedOk(log: seq<Event>, e: Event) {
    e.Added? && e.checkedUpTo <= |log| && Unseen(log[..e.checkedUpTo], e.records)
  }

  ghost predicate ReportOk(rep: StoredReport) { rep.gate != FAIL ==> !SharesContent(rep.records, rep.against) }

  ghost predicate Inv(s: State) {
    && (forall r :: r in s.validating ==> ReportOk(s.validating[r]))
    && (forall r :: r in s.creating ==> CheckedOk(s.log, s.creating[r]))
    && (forall i :: 0 <= i < |s.log| ==>
          (s.log[i].Reported? ==> ReportOk(s.log[i].report)) && (s.log[i].Added? ==> CheckedOk(s.log[..i], s.log[i])))
  }

  lemma CheckedOkGrows(log: seq<Event>, more: Event, e: Event)
    requires CheckedOk(log, e)
    ensures CheckedOk(log + [more], e)
  {
    assert (log + [more])[..e.checkedUpTo] == log[..e.checkedUpTo];
  }

  lemma AppendKeeps(s: State, e: Event)
    requires Inv(s)
    requires e.Reported? ==> ReportOk(e.report)
    requires e.Added? ==> CheckedOk(s.log, e)
    ensures Inv(s.(log := s.log + [e]))
  {
    var log' := s.log + [e];
    forall r | r in s.creating ensures CheckedOk(log', s.creating[r]) { CheckedOkGrows(s.log, e, s.creating[r]); }
    forall i | 0 <= i < |log'|
      ensures (log'[i].Reported? ==> ReportOk(log'[i].report)) && (log'[i].Added? ==> CheckedOk(log'[..i], log'[i]))
    {
      assert log'[..i] == s.log[..i];
      if i == |s.log| { assert s.log[..i] == s.log; }
    }
  }

  lemma StepKeeps(s: State, l: Label)
    requires Inv(s) && Enabled(s, l)
    ensures Inv(Apply(s, l))
  {
    match l
    case Validate(r, records, against, gate) =>
      var rep: Report, rules: Rec -> seq<Code>, ratio: real :| IsReport(rep, records, against, rules, ratio)
        && rep.gate == gate;
      if gate != FAIL { NotFailedIsDisjoint(rep, records, against, rules, ratio); }
    case StoreReport(r) => AppendKeeps(s, Reported(s.validating[r]));
    case CheckEvalSet(r, records) => assert s.log[..|s.log|] == s.log;
    case StoreEvalSet(r) => AppendKeeps(s, s.creating[r]);
    case Drop(r) =>
  }

  lemma {:induction false} InvAlways(states: seq<State>, labels: seq<Label>, n: nat)
    requires IsRun(states, labels) && n < |states|
    ensures Inv(states[n])
  {
    if n > 0 {
      InvAlways(states, labels, n - 1);
      StepKeeps(states[n - 1], labels[n - 1]);
    }
  }

  // In every history: if a report that did not fail shares a user content with a stored eval set,
  // then the report was stored after the eval set had made its own check, and it was not validated
  // against any record with that content - so not against that eval set.
  lemma OverlapMeansUnchecked(states: seq<State>, labels: seq<Label>, n: nat, i: nat, j: nat, c: string)
    requires IsRun(states, labels) && n < |states| && i < |states[n].log| && j < |states[n].log|
    requires states[n].log[i].Reported? && states[n].log[i].report.gate != FAIL && states[n].log[j].Added?
    requires c in EvalContents(states[n].log[i].report.records) && c in EvalContents(states[n].log[j].records)
    ensures i >= states[n].log[j].checkedUpTo
    ensures c !in EvalContents(states[n].log[i].report.against)
    ensures states[n].log[i].report.against != states[n].log[j].records
  {
    InvAlways(states, labels, n);
    var log := states[n].log;
    assert ReportOk(log[i].report) && CheckedOk(log[..j], log[j]);
    assert SharesContent(log[j].records, log[i].report.records);
    SharedIsLater(log, i, j);
  }

  lemma SharedIsLater(log: seq<Event>, i: nat, j: nat)
    requires i < |log| && j < |log| && log[i].Reported? && CheckedOk(log[..j], log[j])
    requires SharesContent(log[j].records, log[i].report.records)
    ensures i >= log[j].checkedUpTo
  {
    var seen := log[..j][..log[j].checkedUpTo];
    assert forall k :: 0 <= k < |seen| ==> seen[k] == log[k];
  }

  // The eval set is the newer of the two exactly when the report was stored in its window, between its
  // check and its storing. So with no report in the window the report is the newer one.
  lemma NewerExactly(states: seq<State>, labels: seq<Label>, n: nat, i: nat, j: nat)
    requires IsRun(states, labels) && n < |states| && i < |states[n].log| && j < |states[n].log|
    requires states[n].log[i].Reported? && states[n].log[i].report.gate != FAIL && states[n].log[j].Added?
    requires SharesContent(states[n].log[i].report.records, states[n].log[j].records)
    ensures i < j <==> states[n].log[j].checkedUpTo <= i < j
    ensures (forall k :: states[n].log[j].checkedUpTo <= k < j ==> !states[n].log[k].Reported?) ==> j < i
  {
    var c :| c in EvalContents(states[n].log[i].report.records) && c in EvalContents(states[n].log[j].records);
    OverlapMeansUnchecked(states, labels, n, i, j, c);
    NotBefore(states[n].log, states[n].log[j].checkedUpTo, i, j);
  }

  lemma NotBefore(log: seq<Event>, from: nat, i: nat, j: nat)
    requires from <= i < |log| && j < |log| && log[i].Reported? && log[j].Added?
    ensures (forall k :: from <= k < j ==> !log[k].Reported?) ==> j < i
  {
  }

  // A record without errors of its own passes against nothing.
  lemma PassesAgainstNothing(r: Rec)
    ensures IsVerdict([r], [], PASS)
  {
    var rules: Rec -> seq<Code> := _ => [];
    var rep := Report([[]], 0, 0, 1, 0, PASS);
    assert IsReport(rep, [r], [], rules, 1.0) by {
      assert !Duplicate([r], 0);
      assert EvalContents([]) == {};
      NoLeakage([r], {});
      NoRepeats(PairsOf([r]), 1);
      AllClean([[]], 1);
    }
  }

  // Such an overlap does happen: an eval set is stored, then the same record is validated against
  // nothing and passes.
  lemma OverlapHappens(r: Rec)
    requires UserContent(r).Some?
    ensures exists states: seq<State>, labels: seq<Label> :: IsRun(states, labels) && |labels| == 4
              && states[4].log == [Added([r], 0), Reported(StoredReport([r], [], PASS))]
  {
    PassesAgainstNothing(r);
    var stored := StoredReport([r], [], PASS);
    var s1 := State([], map[], map[1 := Added([r], 0)]);
    var s2 := State([Added([r], 0)], map[], map[]);
    var s3 := State([Added([r], 0)], map[2 := stored], map[]);
    var s4 := State([Added([r], 0), Reported(stored)], map[], map[]);
    var labels := [CheckEvalSet(1, [r]), StoreEvalSet(1), Validate(2, [r], [], PASS), StoreReport(2)];
    assert Apply(INIT, labels[0]) == s1;
    assert Apply(s1, labels[1]) == s2;
    assert Apply(s2, labels[2]) == s3;
    assert Apply(s3, labels[3]) == s4;
    var states := [INIT, s1, s2, s3, s4];
    assert IsRun(states, labels);
    assert states[4] == s4;
  }

  // And so does the other order, through the window alone: the eval set makes its check, the report is
  // validated and stored, and the eval set is stored after it.
  lemma WindowHappens(r: Rec)
    requires UserContent(r).Some?
    ensures exists states: seq<State>, labels: seq<Label> :: IsRun(states, labels) && |labels| == 4
              && states[4].log == [Reported(StoredReport([r], [], PASS)), Added([r], 0)]
  {
    PassesAgainstNothing(r);
    var stored := StoredReport([r], [], PASS);
    var s1 := State([], map[], map[1 := Added([r], 0)]);
    var s2 := State([], map[2 := stored], map[1 := Added([r], 0)]);
    var s3 := State([Reported(stored)], map[], map[1 := Added([r], 0)]);
    var s4 := State([Reported(stored), Added([r], 0)], map[], map[]);
    var labels := [CheckEvalSet(1, [r]), Validate(2, [r], [], PASS), StoreReport(2), StoreEvalSet(1)];
    assert Apply(INIT, labels[0]) == s1;
    assert Apply(s1, labels[1]) == s2;
    assert Apply(s2, labels[2]) == s3;
    assert Apply(s3, labels[3]) == s4;
    var states := [INIT, s1, s2, s3, s4];
    assert IsRun(states, labels);
    assert states[4] == s4;
  }
}
