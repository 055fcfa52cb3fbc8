/** The chain from staged bytes to trained-on bytes: intake validation, commit, the pin snapshot, retries,
    and the resolution of the pin before a training process is spawned.

    `hash` stands for SHA-256; nothing is assumed about it. `World` is the state a request sees, and
    `IntakeService` the handlers over it. */
module DatasetPins {
  import opened Wrappers
  import opened Validation

  newtype byte = b: int | 0 <= b < 256

  type Bytes = seq<byte>

  type Hash = Bytes -> string

  // The parts of an object key, `datasets/{dataset}/v{number}/{file}`.
  datatype Key = Key(dataset: string, number: nat, file: string)

  datatype StagedFile = StagedFile(file: string, bytes: Bytes)

  datatype VersionRow = VersionRow(dataset: string, number: nat, uri: Option<Key>)

  // `parsed`: the bytes the records were read from; `dump`: the JSON dump of the records, whose hash the
  // report is stored with; `file`: what the staged file held when intake put its hash in place of that,
  // in a commit of its own. `origin`: the staged file of an intake report.
  datatype StoredReport = StoredReport(version: nat, parsed: Bytes, dump: Bytes, file: Option<Bytes>, digest: string,
                                       gate: Gate, count: nat, origin: Option<string>)

  // The bytes whose hash the report shows.
  function Examined(rep: StoredReport): Bytes { if rep.file.Some? then rep.file.value else rep.dump }

  // Its hash is not replaced any more.
  predicate Final(rep: StoredReport) { rep.origin == None || rep.file.Some? }

  datatype Pin = Pin(dataset: string, number: nat, uri: Option<Key>, digest: string)

  datatype Config = Config(pin: Option<Pin>, hfDataset: string)

  datatype RunRow = RunRow(version: nat, config: Config, failed: bool, retryOf: Option<nat>)

  datatype World = World(staging: map<string, StagedFile>, objects: map<Key, Bytes>,
                         versions: seq<VersionRow>, reports: seq<StoredReport>, runs: seq<RunRow>)

  datatype CommitError = STAGING_NOT_FOUND | VALIDATION_REPORT_NOT_FOUND | VALIDATION_FAILED | CHECKSUM_MISMATCH
                       | DATASET_VERSION_NOT_FOUND | ARTIFACT_EXISTS

  datatype RunError = DATASET_NOT_FOUND | VALIDATION_REQUIRED | VALIDATION_FAILED_GATE | VALIDATION_NEEDS_REVIEW
      | NO_RECORDS

  const SIDECARS: set<string> := {"validation_report.json", "schema.json"}

  // What the trainer is given.
  datatype Source = Pinned(bytes: Bytes) | Legacy(hfDataset: string) | Refused

  // ----- Reading the tables -----

  function LatestNumber(versions: seq<VersionRow>, dataset: string): (n: nat)
    ensures forall i :: 0 <= i < |versions| && versions[i].dataset == dataset ==> versions[i].number <= n
  {
    if versions == [] then 0
    else
      var last := versions[|versions| - 1];
      var rest := LatestNumber(versions[..|versions| - 1], dataset);
      if last.dataset == dataset && last.number > rest then last.number else rest
  }

  // Reports are stored in the order they ran, so the latest of a version is the last one.
  function LatestReport(reports: seq<StoredReport>, version: nat): (r: Option<nat>)
    ensures r.Some? ==> r.value < |reports| && reports[r.value].version == version
    ensures r == None <==> forall i :: 0 <= i < |reports| ==> reports[i].version != version
  {
    if reports == [] then None
    else if reports[|reports| - 1].version == version then Some(|reports| - 1)
    else LatestReport(reports[..|reports| - 1], version)
  }

  lemma {:induction false} LatestNumberIs(versions: seq<VersionRow>, dataset: string)
    ensures LatestNumber(versions, dataset) > 0 ==>
              exists i :: 0 <= i < |versions| && versions[i].dataset == dataset
                          && versions[i].number == LatestNumber(versions, dataset)
  {
    if versions != [] {
      var last, front := |versions| - 1, versions[..|versions| - 1];
      LatestNumberIs(front, dataset);
      if LatestNumber(versions, dataset) == LatestNumber(front, dataset) && LatestNumber(front, dataset) > 0 {
        var i :| 0 <= i < |front| && front[i].dataset == dataset && front[i].number == LatestNumber(front, dataset);
        assert versions[i] == front[i];
      }
    }
  }

  // The latest report is the last one stored for the version.
  lemma {:induction false} LatestReportIs(reports: seq<StoredReport>, version: nat, k: nat)
    ensures LatestReport(reports, version) == Some(k) <==>
              k < |reports| && reports[k].version == version
              && forall j :: k < j < |reports| ==> reports[j].version != version
  {
    if reports != [] && reports[|reports| - 1].version != version {
      LatestReportIs(reports[..|reports| - 1], version, k);
    }
  }

  // ----- What the handlers do -----

  // A version that comes from no staged file: nothing is stored for it, and no report examines it yet.
  function AfterAdd(w: World, dataset: string): World {
    w.(versions := w.versions + [VersionRow(dataset, LatestNumber(w.versions, dataset) + 1, None)])
  }

  // The first commit of an intake validation.
  function AfterValidate(w: World, hash: Hash, id: string, dataset: string, dump: Bytes, gate: Gate, count: nat): World
    requires id in w.staging
  {
    w.(versions := w.versions + [VersionRow(dataset, LatestNumber(w.versions, dataset) + 1, None)],
       reports := w.reports
         + [StoredReport(|w.versions|, w.staging[id].bytes, dump, None, hash(dump), gate, count, Some(id))])
  }

  // The second: the file's hash takes the place of the dump's.
  function AfterSeal(w: World, hash: Hash, report: nat, id: string): World
    requires report < |w.reports| && id in w.staging
  {
    var bytes := w.staging[id].bytes;
    w.(reports := w.reports[report := w.reports[report].(file := Some(bytes), digest := hash(bytes))])
  }

  function CommitRefusal(w: World, hash: Hash, id: string, report: nat, dataset: string): Option<CommitError> {
    if id !in w.staging then Some(STAGING_NOT_FOUND)
    else if report >= |w.reports| then Some(VALIDATION_REPORT_NOT_FOUND)
    else
      var vr := w.reports[report];
      if vr.gate == FAIL then Some(VALIDATION_FAILED)
      else if vr.digest != "" && hash(w.staging[id].bytes) != vr.digest then Some(CHECKSUM_MISMATCH)
      else if vr.version >= |w.versions| || w.versions[vr.version].dataset != dataset
        then Some(DATASET_VERSION_NOT_FOUND)
      else if Key(dataset, w.versions[vr.version].number, w.staging[id].file) in w.objects then Some(ARTIFACT_EXISTS)
      else None
  }

  // The file is read again for the upload: `uploaded` is what it holds by then. The sidecars are
  // written last and may overwrite.
  function AfterCommit(w: World, hash: Hash, id: string, report: nat, dataset: string, uploaded: Bytes,
                       manifest: Bytes, schema: Bytes): World
    requires CommitRefusal(w, hash, id, report, dataset) == None
  {
    var v := w.reports[report].version;
    var row := w.versions[v];
    var key := Key(dataset, row.number, w.staging[id].file);
    w.(staging := w.staging - {id},
       versions := w.versions[v := row.(uri := Some(key))],
       objects := w.objects[key := uploaded][Key(dataset, row.number, "validation_report.json") := manifest]
                                            [Key(dataset, row.number, "schema.json") := schema])
  }

  function RunRefusal(w: World, version: nat): Option<RunError> {
    if version >= |w.versions| then Some(DATASET_NOT_FOUND)
    else match LatestReport(w.reports, version)
      case None => Some(VALIDATION_REQUIRED)
      case Some(r) =>
        if w.reports[r].gate == FAIL then Some(VALIDATION_FAILED_GATE)
        else if w.reports[r].gate == NEEDS_REVIEW then Some(VALIDATION_NEEDS_REVIEW)
        else if w.reports[r].count == 0 then Some(NO_RECORDS)
        else None
  }

  function SnapshotPin(w: World, version: nat): Pin
    requires version < |w.versions|
  {
    var row := w.versions[version];
    var latest := LatestReport(w.reports, version);
    Pin(row.dataset, row.number, row.uri, if latest.Some? then w.reports[latest.value].digest else "")
  }

  function AfterCreate(w: World, version: nat, hfDataset: string): World
    requires RunRefusal(w, version) == None
  {
    w.(runs := w.runs + [RunRow(version, Config(Some(SnapshotPin(w, version)), hfDataset), false, None)])
  }

  function AfterRetry(w: World, run: nat): World
    requires run < |w.runs|
  {
    w.(runs := w.runs + [RunRow(w.runs[run].version, w.runs[run].config, false, Some(run))])
  }

  // `resolve_pin_to_config`.
  function Resolve(objects: map<Key, Bytes>, hash: Hash, config: Config): Source {
    match config.pin
    case None => if config.hfDataset == "" then Refused else Legacy(config.hfDataset)
    case Some(pin) =>
      if pin.dataset == "" || pin.uri == None || pin.uri.value !in objects then Refused
      else if pin.digest != "" && hash(objects[pin.uri.value]) != pin.digest then Refused
      else Pinned(objects[pin.uri.value])
  }

  // ----- What the handlers refuse, and why -----

  // The refusals of a commit, each with its cause; a report with a failed gate is never committed.
  lemma CommitRefusedExactly(w: World, hash: Hash, id: string, report: nat, dataset: string)
    ensures var refusal := CommitRefusal(w, hash, id, report, dataset);
            && (refusal == Some(STAGING_NOT_FOUND) <==> id !in w.staging)
            && (refusal == Some(VALIDATION_REPORT_NOT_FOUND) <==> id in w.staging && report >= |w.reports|)
            && (refusal == Some(VALIDATION_FAILED)
               <==> id in w.staging && report < |w.reports| && w.reports[report].gate == FAIL)
            && (refusal == None ==>
                  && id in w.staging && report < |w.reports| && w.reports[report].gate in {PASS, NEEDS_REVIEW})
    ensures id in w.staging && report < |w.reports| && w.reports[report].gate != FAIL ==>
              var refusal, vr := CommitRefusal(w, hash, id, report, dataset), w.reports[report];
              var same := vr.digest == "" || hash(w.staging[id].bytes) == vr.digest;
              var found := vr.version < |w.versions| && w.versions[vr.version].dataset == dataset;
              && (refusal == Some(CHECKSUM_MISMATCH) <==> !same)
              && (refusal == Some(DATASET_VERSION_NOT_FOUND) <==> same && !found)
              && (refusal == Some(ARTIFACT_EXISTS) <==>
                    same && found && Key(dataset, w.versions[vr.version].number, w.staging[id].file) in w.objects)
              && (refusal == None <==>
                    same && found && Key(dataset, w.versions[vr.version].number, w.staging[id].file) !in w.objects)
  {
  }

  // A run is let through exactly by a latest report that passed with at least one record.
  lemma RunRefusedExactly(w: World, version: nat)
    ensures var refusal := RunRefusal(w, version);
            && (refusal == Some(DATASET_NOT_FOUND) <==> version >= |w.versions|)
            && (refusal == Some(VALIDATION_REQUIRED) <==>
                  version < |w.versions| && forall k :: 0 <= k < |w.reports| ==> w.reports[k].version != version)
    ensures forall k: nat :: version < |w.versions| && LatestReport(w.reports, version) == Some(k) ==>
              var refusal := RunRefusal(w, version);
              && (refusal == Some(VALIDATION_FAILED_GATE) <==> w.reports[k].gate == FAIL)
              && (refusal == Some(VALIDATION_NEEDS_REVIEW) <==> w.reports[k].gate == NEEDS_REVIEW)
              && (refusal == Some(NO_RECORDS) <==> w.reports[k].gate == PASS && w.reports[k].count == 0)
              && (refusal == None <==> w.reports[k].gate == PASS && w.reports[k].count > 0)
  {
  }

  // What a configuration resolves to: its pinned bytes exactly when they are there and hash like the pin,
  // the named dataset exactly without a pin.
  lemma ResolvedExactly(objects: map<Key, Bytes>, hash: Hash, config: Config, bytes: Bytes)
    ensures Resolve(objects, hash, config) == Pinned(bytes) <==>
              && config.pin.Some? && config.pin.value.dataset != "" && config.pin.value.uri.Some?
              && config.pin.value.uri.value in objects && objects[config.pin.value.uri.value] == bytes
              && (config.pin.value.digest == "" || hash(bytes) == config.pin.value.digest)
    ensures Resolve(objects, hash, config).Legacy? <==> config.pin == None && config.hfDataset != ""
    ensures Resolve(objects, hash, config).Legacy? ==> Resolve(objects, hash, config).hfDataset == config.hfDataset
  {
  }

  const CHUNK := 1048576

  class IntakeService {
    const hash: Hash
    var staging: map<string, StagedFile>
    var objects: map<Key, Bytes>
    var versions: seq<VersionRow>
    var reports: seq<StoredReport>
    var runs: seq<RunRow>

    ghost function State(): World
      reads this
    {
      World(staging, objects, versions, reports, runs)
    }

    constructor (hash: Hash)
      ensures this.hash == hash && State() == World(map[], map[], [], [], [])
    {
      this.hash := hash;
      staging, objects, versions, reports, runs := map[], map[], [], [], [];
    }

    // The digest is fed one chunk at a time.
    method ComputeChecksum(bytes: Bytes) returns (digest: string)
      ensures digest == hash(bytes)
    {
      var fed: Bytes := [];
      while |fed| < |bytes|
        invariant |fed| <= |bytes| && fed == bytes[..|fed|]
      {
        var end := if |fed| + CHUNK <= |bytes| then |fed| + CHUNK else |bytes|;
        fed := fed + bytes[|fed|..end];
      }
      assert fed == bytes;
      digest := hash(fed);
    }

    // `create_dataset_version` and its twin for curated feedback.
    method CreateDatasetVersion(dataset: string) returns (version: nat)
      modifies this
      ensures version == |old(versions)| && State() == AfterAdd(old(State()), dataset)
    {
      version := |versions|;
      versions := versions + [VersionRow(dataset, LatestNumber(versions, dataset) + 1, None)];
    }

    // The report is committed by the validation service, with the hash of the JSON dump; only then is the
    // file hashed and the report committed again. `survives`: the request gets that far.
    method ValidateIntake(id: string, dataset: string, dump: Bytes, gate: Gate, count: nat, survives: bool)
        returns (report: Option<nat>)
      modifies this
      ensures report == None <==> id !in old(staging)
      ensures report == None ==> State() == old(State())
      ensures report.Some? ==>
                && report.value == old(|reports|)
                && (var first := AfterValidate(old(State()), hash, id, dataset, dump, gate, count);
                    State() == if survives then AfterSeal(first, hash, report.value, id) else first)
    {
      if id !in staging { return None; }
      report := Some(|reports|);
      var parsed := staging[id].bytes;
      var row := VersionRow(dataset, LatestNumber(versions, dataset) + 1, None);
      versions := versions + [row];
      var digest := ComputeChecksum(dump);
      reports := reports + [StoredReport(|versions| - 1, parsed, dump, None, digest, gate, count, Some(id))];
      if survives {
        digest := ComputeChecksum(staging[id].bytes);
        reports := reports[report.value := reports[report.value].(file := Some(staging[id].bytes), digest := digest)];
      }
    }

    method CommitIntake(id: string, report: nat, dataset: string, uploaded: Bytes, manifest: Bytes, schema: Bytes)
        returns (refusal: Option<CommitError>)
      modifies this
      ensures refusal == CommitRefusal(old(State()), hash, id, report, dataset)
      ensures State() == if refusal.Some? then old(State())
                         else AfterCommit(old(State()), hash, id, report, dataset, uploaded, manifest, schema)
      ensures refusal == Some(VALIDATION_FAILED) <==>
                id in old(staging) && report < |old(reports)| && old(reports)[report].gate == FAIL
      ensures refusal == None ==>
                var v := old(reports)[report].version;
                var number, file := old(versions)[v].number, old(staging)[id].file;
                && staging == old(staging) - {id} && reports == old(reports) && runs == old(runs)
                && versions == old(versions)[v := VersionRow(dataset, number, Some(Key(dataset, number, file)))]
                && (file !in {"validation_report.json", "schema.json"} ==>
                      Key(dataset, number, file) in objects && objects[Key(dataset, number, file)] == uploaded)
                && Key(dataset, number, "validation_report.json") in objects
                && objects[Key(dataset, number, "validation_report.json")] == manifest
                && Key(dataset, number, "schema.json") in objects
                     && objects[Key(dataset, number, "schema.json")] == schema
                && forall k :: k !in {Key(dataset, number, file), Key(dataset, number, "validation_report.json"),
                                      Key(dataset, number, "schema.json")} ==>
                     (k in objects <==> k in old(objects)) && (k in objects ==> objects[k] == old(objects)[k])
    {
      if id !in staging { return Some(STAGING_NOT_FOUND); }
      if report >= |reports| { return Some(VALIDATION_REPORT_NOT_FOUND); }
      var vr := reports[report];
      if vr.gate == FAIL { return Some(VALIDATION_FAILED); }
      var digest := ComputeChecksum(staging[id].bytes);
      if vr.digest != "" && digest != vr.digest { return Some(CHECKSUM_MISMATCH); }
      if vr.version >= |versions| || versions[vr.version].dataset != dataset { return Some(DATASET_VERSION_NOT_FOUND); }
      var number := versions[vr.version].number;
      var key := Key(dataset, number, staging[id].file);
      if key in objects { return Some(ARTIFACT_EXISTS); }
      objects := objects[key := uploaded];
      staging := staging - {id};
      versions := versions[vr.version := versions[vr.version].(uri := Some(key))];
      objects := objects[Key(dataset, number, "validation_report.json") := manifest];
      objects := objects[Key(dataset, number, "schema.json") := schema];
      refusal := None;
    }

    method CreateTrainingRun(version: nat, hfDataset: string) returns (refusal: Option<RunError>)
      modifies this
      ensures refusal == RunRefusal(old(State()), version)
      ensures State() == if refusal.Some? then old(State()) else AfterCreate(old(State()), version, hfDataset)
      ensures refusal == None ==>
                var run := runs[|old(runs)|];
                && |runs| == |old(runs)| + 1 && run.version == version && !run.failed && run.retryOf == None
                && run.config.hfDataset == hfDataset && run.config.pin.Some?
                && run.config.pin.value.dataset == versions[version].dataset
                && run.config.pin.value.number == versions[version].number
                && run.config.pin.value.uri == versions[version].uri
    {
      if version >= |versions| { return Some(DATASET_NOT_FOUND); }
      var latest := LatestReport(reports, version);
      if latest == None { return Some(VALIDATION_REQUIRED); }
      var report := reports[latest.value];
      if report.gate == FAIL { return Some(VALIDATION_FAILED_GATE); }
      if report.gate == NEEDS_REVIEW { return Some(VALIDATION_NEEDS_REVIEW); }
      if report.count == 0 { return Some(NO_RECORDS); }
      var pin := Pin(versions[version].dataset, versions[version].number, versions[version].uri, report.digest);
      runs := runs + [RunRow(version, Config(Some(pin), hfDataset), false, None)];
      refusal := None;
    }

    method RetryTrainingRun(run: nat) returns (ok: bool)
      requires run < |runs|
      modifies this
      ensures ok <==> old(runs)[run].failed
      ensures State() == if ok then AfterRetry(old(State()), run) else old(State())
      ensures ok ==> runs == old(runs) + [RunRow(old(runs)[run].version, old(runs)[run].config, false, Some(run))]
    {
      ok := runs[run].failed;
      if ok {
        runs := runs + [RunRow(runs[run].version, runs[run].config, false, Some(run))];
      }
    }

    // The head of `UnslothTrainingRunner.run`: a refusal makes the worker fail the run.
    method ResolveAndRun(run: nat) returns (source: Source)
      requires run < |runs|
      modifies this`runs
      ensures source == Resolve(objects, hash, old(runs)[run].config)
      ensures runs == if source == Refused then old(runs)[run := old(runs)[run].(failed := true)] else old(runs)
    {
      var config := runs[run].config;
      source := Refused;
      if config.pin == None {
        if config.hfDataset != "" { source := Legacy(config.hfDataset); }
      } else {
        var pin := config.pin.value;
        if pin.dataset != "" && pin.uri.Some? && pin.uri.value in objects {
          var bytes := objects[pin.uri.value];
          var digest := ComputeChecksum(bytes);
          if pin.digest == "" || digest == pin.digest { source := Pinned(bytes); }
        }
      }
      if source == Refused { runs := runs[run := runs[run].(failed := true)]; }
    }
  }
}

/** Histories of staging, validation, commit, run creation, retries and damage to the store. */
module PinHistory {
  import opened Wrappers
  import opened Validation
  import opened DatasetPins

  datatype Label = Stage(id: string, file: StagedFile)
                 | Tamper(id: string, bytes: Bytes)
                 | AddVersion(dataset: string)
                 | Validate(id: string, dataset: string, dump: Bytes, gate: Gate, count: nat)
                 | Seal(report: nat, id: string)
                 | Revalidate(version: nat, json: Bytes, gate: Gate, count: nat)
                 | Commit(id: string, report: nat, dataset: string, uploaded: Bytes, manifest: Bytes, schema: Bytes)
                 | CreateRun(version: nat, hfDataset: string)
                 | AddLegacyRun(version: nat, hfDataset: string)
                 | Retry(run: nat)
                 | Fail(run: nat)
                 | Damage(key: Key, left: Option<Bytes>)

  const INIT := World(map[], map[], [], [], [])

  predicate Enabled(hash: Hash, w: World, l: Label) {
    match l
    case Stage(id, _) => id !in w.staging
    case Tamper(id, _) => id in w.staging
    case AddVersion(_) => true
    case Validate(id, _, _, _, _) => id in w.staging
    case Seal(r, id) => r < |w.reports| && !Final(w.reports[r]) && w.reports[r].origin == Some(id) && id in w.staging
    case Revalidate(v, _, _, _) => v < |w.versions|
    case Commit(id, r, dataset, _, _, _) => CommitRefusal(w, hash, id, r, dataset) == None
    case CreateRun(v, _) => RunRefusal(w, v) == None
    case AddLegacyRun(_, _) => true
    case Retry(run) => run < |w.runs| && w.runs[run].failed
    case Fail(run) => run < |w.runs|
    case Damage(key, _) => key in w.objects
  }

  function Apply(hash: Hash, w: World, l: Label): World
    requires Enabled(hash, w, l)
  {
    match l
    case Stage(id, file) => w.(staging := w.staging[id := file])
    case Tamper(id, bytes) => w.(staging := w.staging[id := w.staging[id].(bytes := bytes)])
    case AddVersion(dataset) => AfterAdd(w, dataset)
    case Validate(id, dataset, dump, gate, count) => AfterValidate(w, hash, id, dataset, dump, gate, count)
    case Seal(r, id) => AfterSeal(w, hash, r, id)
    case Revalidate(v, json, gate, count) =>
      w.(reports := w.reports + [StoredReport(v, json, json, None, hash(json), gate, count, None)])
    case Commit(id, r, dataset, uploaded, manifest, schema) =>
      AfterCommit(w, hash, id, r, dataset, uploaded, manifest, schema)
    case CreateRun(v, hf) => AfterCreate(w, v, hf)
    case AddLegacyRun(v, hf) => w.(runs := w.runs + [RunRow(v, Config(None, hf), false, None)])
    case Retry(run) => AfterRetry(w, run)
    case Fail(run) => w.(runs := w.runs[run := w.runs[run].(failed := true)])
    case Damage(key, left) =>
      w.(objects := if left.Some? then w.objects[key := left.value] else w.objects - {key})
  }

  ghost predicate IsHistory(hash: Hash, ws: seq<World>, labels: seq<Label>) {
    && |ws| == |labels| + 1 && ws[0] == INIT
    && forall i :: 0 <= i < |labels| ==> Enabled(hash, ws[i], labels[i]) && ws[i + 1] == Apply(hash, ws[i], labels[i])
  }

  // The digest is the hash of what the report examined: the JSON dump, or the file in its place.
  predicate DigestOf(hash: Hash, rep: StoredReport, digest: string) {
    digest == hash(rep.dump) || (rep.file.Some? && digest == hash(rep.file.value))
  }

  // The report a pinned run was let through by.
  predicate ClearedBy(hash: Hash, reports: seq<StoredReport>, run: RunRow, r: nat) {
    && r < |reports| && reports[r].gate == PASS && reports[r].count > 0 && reports[r].version == run.version
    && run.config.pin.Some? && DigestOf(hash, reports[r], run.config.pin.value.digest)
  }

  ghost predicate Cleared(hash: Hash, reports: seq<StoredReport>, run: RunRow) {
    exists r :: ClearedBy(hash, reports, run, r)
  }

  ghost predicate Inv(hash: Hash, w: World) {
    && (forall i :: 0 <= i < |w.reports| ==> w.reports[i].digest == hash(Examined(w.reports[i])))
    && (forall q :: 0 <= q < |w.runs| && w.runs[q].config.pin.Some? ==> Cleared(hash, w.reports, w.runs[q]))
    && (forall q :: 0 <= q < |w.runs| && w.runs[q].retryOf.Some? ==>
          var p := w.runs[q].retryOf.value;
          p < q && w.runs[p].config == w.runs[q].config && w.runs[p].version == w.runs[q].version)
  }

  // The numbers of a dataset's versions never repeat, whichever way they come in.
  ghost predicate DistinctNumbers(versions: seq<VersionRow>) {
    forall i, j :: 0 <= i < j < |versions| && versions[i].dataset == versions[j].dataset
      ==> versions[i].number != versions[j].number
  }

  lemma {:induction false} NumbersStayDistinct(hash: Hash, ws: seq<World>, labels: seq<Label>, n: nat)
    requires IsHistory(hash, ws, labels) && n < |ws|
    ensures DistinctNumbers(ws[n].versions)
  {
    if n > 0 {
      NumbersStayDistinct(hash, ws, labels, n - 1);
      assert Enabled(hash, ws[n - 1], labels[n - 1]) && ws[n] == Apply(hash, ws[n - 1], labels[n - 1]);
    }
  }

  // Some report of the version did not fail its gate.
  ghost predicate NotFailed(reports: seq<StoredReport>, version: nat) {
    exists r :: 0 <= r < |reports| && reports[r].version == version && reports[r].gate in {PASS, NEEDS_REVIEW}
  }

  ghost predicate CommittedOk(w: World) {
    forall v: nat :: v < |w.versions| && w.versions[v].uri.Some? ==>
      && NotFailed(w.reports, v)
      && w.versions[v].uri.value.dataset == w.versions[v].dataset
      && w.versions[v].uri.value.number == w.versions[v].number
  }

  lemma NotFailedStays(hash: Hash, w: World, l: Label, v: nat)
    requires Enabled(hash, w, l) && NotFailed(w.reports, v)
    ensures NotFailed(Apply(hash, w, l).reports, v)
  {
    var r :| 0 <= r < |w.reports| && w.reports[r].version == v && w.reports[r].gate in {PASS, NEEDS_REVIEW};
    var reports' := Apply(hash, w, l).reports;
    assert reports'[r].version == v && reports'[r].gate == w.reports[r].gate;
  }

  lemma CommittedStep(hash: Hash, w: World, l: Label)
    requires CommittedOk(w) && Enabled(hash, w, l)
    ensures CommittedOk(Apply(hash, w, l))
  {
    var w' := Apply(hash, w, l);
    forall v: nat | v < |w'.versions| && w'.versions[v].uri.Some?
      ensures NotFailed(w'.reports, v)
      ensures w'.versions[v].uri.value.dataset == w'.versions[v].dataset
      ensures w'.versions[v].uri.value.number == w'.versions[v].number
    {
      if l.Commit? && v == w.reports[l.report].version {
        CommitRefusedExactly(w, hash, l.id, l.report, l.dataset);
        assert NotFailed(w.reports, v);
      }
      NotFailedStays(hash, w, l, v);
    }
  }

  // In every history a version with a stored object has a report that did not fail, and the object lies
  // under its own dataset and number.
  lemma {:induction false} CommittedDidNotFail(hash: Hash, ws: seq<World>, labels: seq<Label>, n: nat)
    requires IsHistory(hash, ws, labels) && n < |ws|
    ensures CommittedOk(ws[n])
  {
    if n > 0 {
      CommittedDidNotFail(hash, ws, labels, n - 1);
      CommittedStep(hash, ws[n - 1], labels[n - 1]);
    }
  }

  lemma ClearedStays(hash: Hash, reports: seq<StoredReport>, more: StoredReport, run: RunRow)
    requires Cleared(hash, reports, run)
    ensures Cleared(hash, reports + [more], run)
  {
    var r :| ClearedBy(hash, reports, run, r);
    assert ClearedBy(hash, reports + [more], run, r);
  }

  lemma ReportKeeps(hash: Hash, w: World, more: StoredReport, w': World)
    requires Inv(hash, w) && more.digest == hash(Examined(more))
    requires w'.reports == w.reports + [more] && w'.runs == w.runs
    ensures Inv(hash, w')
  {
    forall q | 0 <= q < |w'.runs| && w'.runs[q].config.pin.Some? ensures Cleared(hash, w'.reports, w'.runs[q]) {
      ClearedStays(hash, w.reports, more, w.runs[q]);
    }
  }

  lemma RunKeeps(hash: Hash, w: World, more: RunRow)
    requires Inv(hash, w)
    requires more.config.pin.Some? ==> Cleared(hash, w.reports, more)
    requires more.retryOf.Some? ==> more.retryOf.value < |w.runs| && w.runs[more.retryOf.value].config == more.config
                                    && w.runs[more.retryOf.value].version == more.version
    ensures Inv(hash, w.(runs := w.runs + [more]))
  {
  }

  lemma StepKeeps(hash: Hash, w: World, l: Label)
    requires Inv(hash, w) && Enabled(hash, w, l)
    ensures Inv(hash, Apply(hash, w, l))
  {
    var w' := Apply(hash, w, l);
    match l
    case Validate(_, _, _, _, _) => ReportKeeps(hash, w, w'.reports[|w.reports|], w');
    case Seal(r, id) => SealKeeps(hash, w, r, id);
    case Revalidate(_, _, _, _) => ReportKeeps(hash, w, w'.reports[|w.reports|], w');
    case CreateRun(v, _) =>
      assert ClearedBy(hash, w.reports, w'.runs[|w.runs|], LatestReport(w.reports, v).value);
      RunKeeps(hash, w, w'.runs[|w.runs|]);
    case AddLegacyRun(_, _) => RunKeeps(hash, w, w'.runs[|w.runs|]);
    case Retry(run) => RetryKeeps(hash, w, run);
    case Fail(run) => FailKeeps(hash, w, run);
    case _ =>
  }

  lemma SealKeeps(hash: Hash, w: World, report: nat, id: string)
    requires Inv(hash, w) && report < |w.reports| && id in w.staging && w.reports[report].file == None
    ensures Inv(hash, AfterSeal(w, hash, report, id))
  {
    var w' := AfterSeal(w, hash, report, id);
    forall q | 0 <= q < |w'.runs| && w'.runs[q].config.pin.Some? ensures Cleared(hash, w'.reports, w'.runs[q]) {
      var r :| ClearedBy(hash, w.reports, w.runs[q], r);
      assert ClearedBy(hash, w'.reports, w.runs[q], r);
    }
  }

  lemma RetryKeeps(hash: Hash, w: World, run: nat)
    requires Inv(hash, w) && run < |w.runs|
    ensures Inv(hash, AfterRetry(w, run))
  {
    var more := RunRow(w.runs[run].version, w.runs[run].config, false, Some(run));
    if w.runs[run].config.pin.Some? {
      var r :| ClearedBy(hash, w.reports, w.runs[run], r);
      assert ClearedBy(hash, w.reports, more, r);
    }
    RunKeeps(hash, w, more);
  }

  lemma FailKeeps(hash: Hash, w: World, run: nat)
    requires Inv(hash, w) && run < |w.runs|
    ensures Inv(hash, w.(runs := w.runs[run := w.runs[run].(failed := true)]))
  {
    var runs' := w.runs[run := w.runs[run].(failed := true)];
    forall q | 0 <= q < |runs'| && runs'[q].config.pin.Some? ensures Cleared(hash, w.reports, runs'[q]) {
      var r :| ClearedBy(hash, w.reports, w.runs[q], r);
      assert ClearedBy(hash, w.reports, runs'[q], r);
    }
  }

  lemma {:induction false} InvAlways(hash: Hash, ws: seq<World>, labels: seq<Label>, n: nat)
    requires IsHistory(hash, ws, labels) && n < |ws|
    ensures Inv(hash, ws[n])
  {
    if n > 0 {
      InvAlways(hash, ws, labels, n - 1);
      StepKeeps(hash, ws[n - 1], labels[n - 1]);
    }
  }

  // ----- Main results, over every history, with files and objects damaged at any time -----

  // A pinned run is refused or trains on stored bytes whose hash is that of what a report of its own
  // dataset version examined, one that passed the gate with at least one record: the staged file, or the
  // JSON dump of the records. It never falls back.
  lemma TrainsOnExaminedBytes(hash: Hash, ws: seq<World>, labels: seq<Label>, n: nat, q: nat)
    requires IsHistory(hash, ws, labels) && n < |ws| && q < |ws[n].runs| && ws[n].runs[q].config.pin.Some?
    requires ws[n].runs[q].config.pin.value.digest != ""
    ensures var source := Resolve(ws[n].objects, hash, ws[n].runs[q].config);
            && !source.Legacy?
            && (source.Pinned? ==>
                  exists r: nat :: ClearedBy(hash, ws[n].reports, ws[n].runs[q], r)
                              && DigestOf(hash, ws[n].reports[r], hash(source.bytes)))
  {
    InvAlways(hash, ws, labels, n);
    assert Cleared(hash, ws[n].reports, ws[n].runs[q]);
  }

  // The first run of a chain of retries.
  function Root(runs: seq<RunRow>, q: nat): nat
    requires q < |runs|
    decreases q
  {
    match runs[q].retryOf
    case None => q
    case Some(p) => if p < q then Root(runs, p) else q
  }

  // Every run of a lineage resolves to the same source, whatever the store holds.
  lemma {:induction false} LineageSharesPin(hash: Hash, ws: seq<World>, labels: seq<Label>, n: nat, q: nat,
      objects: map<Key, Bytes>)
    requires IsHistory(hash, ws, labels) && n < |ws| && q < |ws[n].runs|
    ensures var root := Root(ws[n].runs, q);
            && root <= q && ws[n].runs[root].retryOf == None
            && ws[n].runs[root].config == ws[n].runs[q].config
            && Resolve(objects, hash, ws[n].runs[root].config) == Resolve(objects, hash, ws[n].runs[q].config)
    decreases q
  {
    InvAlways(hash, ws, labels, n);
    if ws[n].runs[q].retryOf.Some? { LineageSharesPin(hash, ws, labels, n, ws[n].runs[q].retryOf.value, objects); }
  }

  lemma ObjectStays(hash: Hash, w: World, l: Label, key: Key)
    requires Enabled(hash, w, l) && key in w.objects && key.file !in SIDECARS
    requires l.Damage? ==> l.key != key
    ensures key in Apply(hash, w, l).objects && Apply(hash, w, l).objects[key] == w.objects[key]
  {
  }

  // A committed payload is never replaced by anything the service does - provided it is not named
  // like a sidecar - so a run and all its retries train on the same bytes.
  lemma {:induction false} CommittedBytesStay(hash: Hash, ws: seq<World>, labels: seq<Label>, i: nat, n: nat,
      config: Config)
    requires IsHistory(hash, ws, labels) && i <= n < |ws|
    requires config.pin.Some? && config.pin.value.uri.Some? && config.pin.value.uri.value in ws[i].objects
    requires config.pin.value.uri.value.file !in SIDECARS
    requires forall k :: i <= k < n && labels[k].Damage? ==> labels[k].key != config.pin.value.uri.value
    ensures config.pin.value.uri.value in ws[n].objects
    ensures ws[n].objects[config.pin.value.uri.value] == ws[i].objects[config.pin.value.uri.value]
    ensures Resolve(ws[n].objects, hash, config) == Resolve(ws[i].objects, hash, config)
  {
    if n > i {
      CommittedBytesStay(hash, ws, labels, i, n - 1, config);
      ObjectStays(hash, ws[n - 1], labels[n - 1], config.pin.value.uri.value);
    }
  }

  // What a commit leaves under the payload's own key.
  function Stored(file: string, uploaded: Bytes, manifest: Bytes, schema: Bytes): Bytes {
    if file == "schema.json" then schema else if file == "validation_report.json" then manifest else uploaded
  }

  // Validate, commit, create a run: with the intake report as the latest one the run can train exactly
  // when what the commit left under the payload's key still hashes to what was validated - always when
  // the file did not change between hash and upload and is not named like a sidecar.
  lemma IntakeRunTrainsExactly(hash: Hash, w: World, id: string, dataset: string, dump: Bytes, count: nat, hf: string,
                               uploaded: Bytes, manifest: Bytes, schema: Bytes)
    requires id in w.staging && count > 0 && dataset != "" && hash(w.staging[id].bytes) != ""
    requires CommitRefusal(Validated(w, hash, id, dataset, dump, count), hash, id, |w.reports|, dataset) == None
    ensures var StagedFile(file, validated) := w.staging[id];
            var committed := AfterCommit(Validated(w, hash, id, dataset, dump, count), hash, id, |w.reports|, dataset,
                                         uploaded, manifest, schema);
            && RunRefusal(committed, |w.versions|) == None
            && (var after := AfterCreate(committed, |w.versions|, hf);
                var source := Resolve(after.objects, hash, after.runs[|w.runs|].config);
                && (source.Pinned? <==> hash(Stored(file, uploaded, manifest, schema)) == hash(validated))
                && (source.Pinned? ==> source.bytes == Stored(file, uploaded, manifest, schema))
                && (file !in SIDECARS && uploaded == validated ==> source == Pinned(validated)))
  {
    var committed := AfterCommit(Validated(w, hash, id, dataset, dump, count), hash, id, |w.reports|, dataset,
                                 uploaded, manifest, schema);
    assert LatestReport(committed.reports, |w.versions|) == Some(|w.reports|);
    var key := Key(dataset, committed.versions[|w.versions|].number, w.staging[id].file);
    assert committed.objects[key] == Stored(w.staging[id].file, uploaded, manifest, schema);
  }

  // An intake validation that passes the gate, with nobody else about.
  function Validated(w: World, hash: Hash, id: string, dataset: string, dump: Bytes, count: nat): World
    requires id in w.staging
  {
    AfterSeal(AfterValidate(w, hash, id, dataset, dump, PASS, count), hash, |w.reports|, id)
  }

  // ----- The same over histories, whatever else happens between the requests -----

  lemma {:induction false} ReportStays(hash: Hash, ws: seq<World>, labels: seq<Label>, k: nat, n: nat, r: nat)
    requires IsHistory(hash, ws, labels) && k <= n < |ws| && r < |ws[k].reports|
    ensures r < |ws[n].reports|
    ensures ws[n].reports[r].version == ws[k].reports[r].version && ws[n].reports[r].parsed == ws[k].reports[r].parsed
    ensures Final(ws[k].reports[r]) ==> ws[n].reports[r] == ws[k].reports[r]
  {
    if n > k {
      ReportStays(hash, ws, labels, k, n - 1, r);
      assert Enabled(hash, ws[n - 1], labels[n - 1]) && ws[n] == Apply(hash, ws[n - 1], labels[n - 1]);
    }
  }

  // Whenever the report a version was committed under is still its latest - the intake report, if nobody
  // has re-validated - the hash that a run of the version pins is that of the bytes the commit checked,
  // and of those the report examined. The report's hash must be in place by the commit.
  lemma CommittedPinIsChecked(hash: Hash, ws: seq<World>, labels: seq<Label>, k: nat, n: nat, l: Label)
    requires IsHistory(hash, ws, labels) && k < n < |ws| && l == labels[k] && l.Commit?
    requires Final(ws[k].reports[l.report]) && ws[k].reports[l.report].digest != ""
    requires LatestReport(ws[n].reports, ws[k].reports[l.report].version) == Some(l.report)
    requires ws[k].reports[l.report].version < |ws[n].versions|
    ensures l.report < |ws[n].reports| && ws[n].reports[l.report] == ws[k].reports[l.report]
    ensures SnapshotPin(ws[n], ws[k].reports[l.report].version).digest
            == hash(ws[k].staging[l.id].bytes) == hash(Examined(ws[n].reports[l.report]))
  {
    ReportStays(hash, ws, labels, k, n, l.report);
    InvAlways(hash, ws, labels, n);
    assert Enabled(hash, ws[k], l);
  }

  // And such a run can train exactly when the upload left what hashes like the checked bytes, and then on
  // the upload - as long as nobody damages the object or commits the version again under another name.
  lemma CommittedRunTrainsExactly(hash: Hash, ws: seq<World>, labels: seq<Label>, k: nat, n: nat, l: Label, hf: string)
    requires IsHistory(hash, ws, labels) && k < n < |ws| && l == labels[k] && l.Commit?
    requires Final(ws[k].reports[l.report]) && ws[k].reports[l.report].digest != "" && l.dataset != ""
    requires LatestReport(ws[n].reports, ws[k].reports[l.report].version) == Some(l.report)
    requires ws[k].reports[l.report].version < |ws[n].versions|
    requires var v := ws[k].reports[l.report].version;
             && ws[n].versions[v].dataset == l.dataset && ws[n].versions[v].uri == ws[k + 1].versions[v].uri
             && ws[k].staging[l.id].file !in SIDECARS
             && forall i :: k < i < n && labels[i].Damage? ==> Some(labels[i].key) != ws[k + 1].versions[v].uri
    ensures var source :=
              Resolve(ws[n].objects, hash, Config(Some(SnapshotPin(ws[n], ws[k].reports[l.report].version)), hf));
            && (source.Pinned? <==> hash(l.uploaded) == hash(ws[k].staging[l.id].bytes))
            && (source.Pinned? ==> source.bytes == l.uploaded)
  {
    var v := ws[k].reports[l.report].version;
    CommittedPinIsChecked(hash, ws, labels, k, n, l);
    UploadIsStored(hash, ws[k], l);
    assert ws[k + 1] == Apply(hash, ws[k], l);
    CommittedBytesStay(hash, ws, labels, k + 1, n, Config(Some(SnapshotPin(ws[n], v)), hf));
  }

  lemma UploadIsStored(hash: Hash, w: World, l: Label)
    requires l.Commit? && Enabled(hash, w, l) && w.staging[l.id].file !in SIDECARS
    ensures var uri := Apply(hash, w, l).versions[w.reports[l.report].version].uri;
            uri.Some? && uri.value.file !in SIDECARS && uri.value in Apply(hash, w, l).objects
            && Apply(hash, w, l).objects[uri.value] == l.uploaded
  {
  }

  // What intake hashes is what it parsed, if the staged file is left alone between its two commits.
  lemma SealedIsParsed(hash: Hash, ws: seq<World>, labels: seq<Label>, j: nat, k: nat, id: string)
    requires IsHistory(hash, ws, labels) && j < k < |labels| && labels[j].Validate? && labels[j].id == id
    requires labels[k] == Seal(|ws[j].reports|, id)
    requires forall i :: j < i < k ==>
               !(labels[i].Tamper? && labels[i].id == id) && !(labels[i].Stage? && labels[i].id == id)
    ensures |ws[j].reports| < |ws[k + 1].reports|
    ensures ws[k + 1].reports[|ws[j].reports|].file == Some(ws[k + 1].reports[|ws[j].reports|].parsed)
  {
    StagedStays(hash, ws, labels, j, k, id);
    assert ws[j + 1] == Apply(hash, ws[j], labels[j]);
    ReportStays(hash, ws, labels, j + 1, k, |ws[j].reports|);
    assert Enabled(hash, ws[k], labels[k]) && ws[k + 1] == Apply(hash, ws[k], labels[k]);
  }

  lemma {:induction false} StagedStays(hash: Hash, ws: seq<World>, labels: seq<Label>, j: nat, k: nat, id: string)
    requires IsHistory(hash, ws, labels) && j < k < |ws| && id in ws[j].staging && labels[j].Validate?
    requires forall i :: j < i < k ==>
               !(labels[i].Tamper? && labels[i].id == id) && !(labels[i].Stage? && labels[i].id == id)
    ensures id in ws[k].staging ==> ws[k].staging[id] == ws[j].staging[id]
  {
    assert Enabled(hash, ws[k - 1], labels[k - 1]) && ws[k] == Apply(hash, ws[k - 1], labels[k - 1]);
    if k > j + 1 { StagedStays(hash, ws, labels, j, k - 1, id); }
  }

  // Re-validating a committed version through the records endpoint makes its report the latest, and
  // that one carries the hash of a JSON dump: a run created afterwards can train exactly when the
  // stored object hashes like the dump.
  lemma RevalidatedRunTrainsExactly(hash: Hash, w: World, version: nat, json: Bytes, count: nat, hf: string)
    requires version < |w.versions| && count > 0 && w.versions[version].dataset != "" && hash(json) != ""
    ensures var revalidated := Apply(hash, w, Revalidate(version, json, PASS, count));
            && RunRefusal(revalidated, version) == None
            && (var after := AfterCreate(revalidated, version, hf);
                var uri := w.versions[version].uri;
                Resolve(after.objects, hash, after.runs[|w.runs|].config).Pinned?
                <==> uri.Some? && uri.value in w.objects && hash(w.objects[uri.value]) == hash(json))
  {
    var revalidated := Apply(hash, w, Revalidate(version, json, PASS, count));
    assert LatestReport(revalidated.reports, version) == Some(|w.reports|);
  }
}
