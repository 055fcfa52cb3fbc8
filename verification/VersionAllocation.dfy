/** `_allocate_version` in its own shape: a bounded retry loop of savepoints, with the other writers as
    an environment that may commit any number of versions before and after the read of any attempt. */
module VersionAllocation {
  import opened Wrappers

  const MAX_VERSION_RETRIES := 30

  // What happens to one attempt: how many versions of the model other writers commit before its read, how
  // many between its read and its insert, and whether the database refuses the insert as locked. The other
  // writers allocate the same way, so what they commit are the next numbers.
  datatype Attempt = Attempt(before: nat, between: nat, locked: bool)

  type Rows = seq<(string, nat)>

  predicate Taken(rows: Rows, m: string, v: nat) { (m, v) in rows }

  // The versions of a model are exactly 1..n, each in one row.
  ghost predicate Numbers(rows: Rows, m: string, n: nat) {
    && (forall v: nat :: Taken(rows, m, v) <==> 1 <= v <= n)
    && (forall i, j :: 0 <= i < j < |rows| && rows[i].0 == m ==> rows[i] != rows[j])
  }

  // The attempt goes through.
  predicate Undisturbed(a: Attempt) { a.between == 0 && !a.locked }

  // How many versions one attempt sees committed, its own included.
  function Written(a: Attempt): nat { a.before + a.between + if Undisturbed(a) then 1 else 0 }

  // How many versions the others have committed by the end of the first k attempts.
  function Others(env: nat -> Attempt, k: nat): nat {
    if k == 0 then 0 else Others(env, k - 1) + env(k - 1).before + env(k - 1).between
  }

  // The rows of the next `count` versions after n.
  function NextRows(m: string, n: nat, count: nat): Rows { seq(count, i => (m, n + 1 + i)) }

  // The rows there were, and the model's next x versions after the n it had.
  ghost predicate Extended(rows: Rows, before: Rows, m: string, n: nat, x: nat) {
    rows == before + NextRows(m, n, x) && Numbers(rows, m, n + x)
  }

  class ModelService {
    var rows: Rows

    constructor ()
      ensures rows == []
    {
      rows := [];
    }

    // The first of `ORDER BY version DESC`, 0 for an empty result.
    method LatestVersion(m: string) returns (latest: nat)
      ensures latest > 0 ==> Taken(rows, m, latest)
      ensures forall v: nat :: Taken(rows, m, v) ==> v <= latest
    {
      latest := 0;
      var i := 0;
      while i < |rows|
        invariant 0 <= i <= |rows|
        invariant latest > 0 ==> Taken(rows, m, latest)
        invariant forall j :: 0 <= j < i && rows[j].0 == m ==> rows[j].1 <= latest
      {
        if rows[i].0 == m && rows[i].1 > latest { latest := rows[i].1; }
        i := i + 1;
      }
    }

    // Others commit `count` versions.
    method OthersCommit(m: string, count: nat, ghost n: nat)
      requires Numbers(rows, m, n)
      modifies this
      ensures rows == old(rows) + NextRows(m, n, count) && Numbers(rows, m, n + count)
    {
      var latest := LatestVersion(m);
      LatestIsCount(rows, m, n, latest);
      AppendNumbers(rows, m, n, count);
      rows := rows + NextRows(m, latest, count);
    }

    method ReadNext(m: string, before: nat, ghost n: nat) returns (next: nat)
      requires Numbers(rows, m, n)
      modifies this
      ensures rows == old(rows) + NextRows(m, n, before) && Numbers(rows, m, n + before)
      ensures next == n + before + 1
    {
      OthersCommit(m, before, n);
      var latest := LatestVersion(m);
      LatestIsCount(rows, m, n + before, latest);
      next := latest + 1;
    }

    // The unique key refuses a number another writer has committed meanwhile.
    method Insert(m: string, a: Attempt, next: nat, ghost n: nat) returns (ok: bool)
      requires Numbers(rows, m, n) && next == n + 1
      modifies this
      ensures ok == Undisturbed(a)
      ensures rows == old(rows) + NextRows(m, n, a.between + if ok then 1 else 0)
      ensures Numbers(rows, m, n + a.between + if ok then 1 else 0)
    {
      OthersCommit(m, a.between, n);
      NumberTaken(rows, m, n + a.between, next);
      ok := !a.locked && (m, next) !in rows;
      if ok {
        AppendNumber(rows, m, n);
        assert NextRows(m, n, 0) == [] && NextRows(m, n, 1) == [(m, next)];
        rows := rows + [(m, next)];
      }
    }

    // The savepoint of one attempt: read the latest number, insert the next one, or roll back.
    method InSavepoint(m: string, a: Attempt, ghost before: Rows, ghost n: nat, ghost x: nat)
        returns (version: Option<nat>)
      requires Extended(rows, before, m, n, x)
      modifies this
      ensures version == if Undisturbed(a) then Some(n + x + a.before + 1) else None
      ensures Extended(rows, before, m, n, x + Written(a))
    {
      var next := ReadNext(m, a.before, n + x);
      Regroup(before, m, n, x, a.before);
      var ok := Insert(m, a, next, n + x + a.before);
      Regroup(before, m, n, x + a.before, a.between + if ok then 1 else 0);
      version := if ok then Some(next) else None;
    }

    // The attempt that succeeds is the first undisturbed one, and its number is one more than the
    // versions there are by its read, its own attempts having added none; without such an attempt
    // there is no number, and every attempt was refused.
    method AllocateVersion(m: string, env: nat -> Attempt, ghost n: nat) returns (version: Option<nat>, attempts: nat)
      requires Numbers(rows, m, n)
      modifies this
      ensures 1 <= attempts <= MAX_VERSION_RETRIES
      ensures forall k :: 0 <= k < attempts - 1 ==> !Undisturbed(env(k))
      ensures version == None <==> forall k :: 0 <= k < MAX_VERSION_RETRIES ==> !Undisturbed(env(k))
      ensures version.Some? ==> Undisturbed(env(attempts - 1)) && version.value == n + Others(env, attempts) + 1
      ensures version == None ==> attempts == MAX_VERSION_RETRIES
      ensures Extended(rows, old(rows), m, n, Others(env, attempts) + if version.Some? then 1 else 0)
    {
      ghost var before := rows;
      attempts := 0;
      assert NextRows(m, n, 0) == [];
      while attempts < MAX_VERSION_RETRIES
        invariant 0 <= attempts <= MAX_VERSION_RETRIES
        invariant forall k :: 0 <= k < attempts ==> !Undisturbed(env(k))
        invariant Extended(rows, before, m, n, Others(env, attempts))
      {
        version := InSavepoint(m, env(attempts), before, n, Others(env, attempts));
        attempts := attempts + 1;
        if version.Some? { return; }
      }
      version := None;
    }
  }

  lemma Regroup(rows: Rows, m: string, n: nat, a: nat, b: nat)
    ensures rows + NextRows(m, n, a) + NextRows(m, n + a, b) == rows + NextRows(m, n, a + b)
  {
  }

  lemma NumberTaken(rows: Rows, m: string, n: nat, v: nat)
    requires Numbers(rows, m, n)
    ensures (m, v) in rows <==> 1 <= v <= n
  {
    assert Taken(rows, m, v) <==> 1 <= v <= n;
  }

  lemma {:induction false} AppendNumbers(rows: Rows, m: string, n: nat, count: nat)
    requires Numbers(rows, m, n)
    ensures Numbers(rows + NextRows(m, n, count), m, n + count)
  {
    if count == 0 {
      assert rows + NextRows(m, n, 0) == rows;
    } else {
      AppendNumbers(rows, m, n, count - 1);
      AppendNumber(rows + NextRows(m, n, count - 1), m, n + count - 1);
      assert NextRows(m, n, count) == NextRows(m, n, count - 1) + [(m, n + count)];
      assert rows + NextRows(m, n, count) == rows + NextRows(m, n, count - 1) + [(m, n + count)];
    }
  }

  lemma LatestIsCount(rows: Rows, m: string, n: nat, latest: nat)
    requires Numbers(rows, m, n)
    requires latest > 0 ==> Taken(rows, m, latest)
    requires forall v: nat :: Taken(rows, m, v) ==> v <= latest
    ensures latest == n
  {
    assert n > 0 ==> Taken(rows, m, n);
  }

  lemma AppendNumber(rows: Rows, m: string, n: nat)
    requires Numbers(rows, m, n)
    ensures Numbers(rows + [(m, n + 1)], m, n + 1)
  {
    var rows' := rows + [(m, n + 1)];
    forall v: nat ensures Taken(rows', m, v) <==> 1 <= v <= n + 1 {
      assert Taken(rows', m, v) <==> Taken(rows, m, v) || v == n + 1;
    }
    assert !Taken(rows, m, n + 1);
  }
}
