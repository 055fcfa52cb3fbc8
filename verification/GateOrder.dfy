/** Counting items that are clean and the first with their key, in any order of the items. */
module FirstOccurrences {
  import opened Wrappers
  import opened Occurrences

  // The keys of the items for which c says `want`.
  function KeysWhere<T, K(==)>(k: T -> Option<K>, c: T -> bool, want: bool, s: seq<T>): set<K> {
    if s == [] then {}
    else
      var x := s[|s| - 1];
      KeysWhere(k, c, want, s[..|s| - 1]) + if c(x) == want && k(x).Some? then {k(x).value} else {}
  }

  function Keys<T, K(==)>(k: T -> Option<K>, c: T -> bool, s: seq<T>): set<K> {
    KeysWhere(k, c, true, s) + KeysWhere(k, c, false, s)
  }

  // Clean, and without an earlier item of the same key.
  predicate Fresh<T, K(==)>(k: T -> Option<K>, c: T -> bool, before: seq<T>, x: T) {
    c(x) && (k(x) == None || k(x).value !in Keys(k, c, before))
  }

  function CountFresh<T, K(==)>(k: T -> Option<K>, c: T -> bool, s: seq<T>): nat {
    if s == [] then 0
    else CountFresh(k, c, s[..|s| - 1]) + if Fresh(k, c, s[..|s| - 1], s[|s| - 1]) then 1 else 0
  }

  // The keys whose first item is clean.
  function FirstClean<T, K(==)>(k: T -> Option<K>, c: T -> bool, s: seq<T>): set<K> {
    if s == [] then {}
    else
      var before, x := s[..|s| - 1], s[|s| - 1];
      FirstClean(k, c, before) + if Fresh(k, c, before, x) && k(x).Some? then {k(x).value} else {}
  }

  function CountWhere<T>(f: T -> bool, s: seq<T>): nat {
    if s == [] then 0 else CountWhere(f, s[..|s| - 1]) + if f(s[|s| - 1]) then 1 else 0
  }

  // Clean items without a key.
  function Unkeyed<T, K(==)>(k: T -> Option<K>, c: T -> bool): T -> bool { x => c(x) && k(x) == None }

  lemma {:induction false} FirstCleanBounds<T, K>(k: T -> Option<K>, c: T -> bool, s: seq<T>)
    ensures KeysWhere(k, c, true, s) - KeysWhere(k, c, false, s) <= FirstClean(k, c, s) <= KeysWhere(k, c, true, s)
  {
    if s != [] { FirstCleanBounds(k, c, s[..|s| - 1]); }
  }

  // Clean items without a key, and one for every key whose first item is clean.
  lemma {:induction false} FreshSplits<T, K>(k: T -> Option<K>, c: T -> bool, s: seq<T>)
    ensures CountFresh(k, c, s) == CountWhere(Unkeyed(k, c), s) + |FirstClean(k, c, s)|
  {
    if s != [] {
      var before, x := s[..|s| - 1], s[|s| - 1];
      FreshSplits(k, c, before);
      FirstCleanBounds(k, c, before);
      if Fresh(k, c, before, x) && k(x).Some? {
        assert k(x).value !in FirstClean(k, c, before);
        assert FirstClean(k, c, s) == FirstClean(k, c, before) + {k(x).value};
      } else {
        assert FirstClean(k, c, s) == FirstClean(k, c, before);
      }
    }
  }

  ghost predicate All<T>(c: T -> bool, want: bool, s: seq<T>) { forall i :: 0 <= i < |s| ==> c(s[i]) == want }

  lemma {:induction false} KeysOfAll<T, K>(k: T -> Option<K>, c: T -> bool, want: bool, s: seq<T>)
    requires All(c, want, s)
    ensures KeysWhere(k, c, !want, s) == {}
    ensures FirstClean(k, c, s) == if want then KeysWhere(k, c, true, s) else {}
  {
    if s != [] { KeysOfAll(k, c, want, s[..|s| - 1]); }
  }

  lemma {:induction false} KeysConcat<T, K>(k: T -> Option<K>, c: T -> bool, want: bool, a: seq<T>, b: seq<T>)
    ensures KeysWhere(k, c, want, a + b) == KeysWhere(k, c, want, a) + KeysWhere(k, c, want, b)
    decreases |b|
  {
    if b == [] {
      assert a + b == a;
    } else {
      assert (a + b)[..|a + b| - 1] == a + b[..|b| - 1];
      KeysConcat(k, c, want, a, b[..|b| - 1]);
    }
  }

  // Clean items first: every key with a clean item counts.
  lemma {:induction false} CleanFirst<T, K>(k: T -> Option<K>, c: T -> bool, a: seq<T>, b: seq<T>)
    requires All(c, true, a) && All(c, false, b)
    ensures FirstClean(k, c, a + b) == KeysWhere(k, c, true, a)
    decreases |b|
  {
    if b == [] {
      assert a + b == a;
      KeysOfAll(k, c, true, a);
    } else {
      assert (a + b)[..|a + b| - 1] == a + b[..|b| - 1];
      CleanFirst(k, c, a, b[..|b| - 1]);
    }
  }

  // Dirty items first: only the keys without a dirty item count.
  lemma {:induction false} DirtyFirst<T, K>(k: T -> Option<K>, c: T -> bool, b: seq<T>, a: seq<T>)
    requires All(c, false, b) && All(c, true, a)
    ensures FirstClean(k, c, b + a) == KeysWhere(k, c, true, a) - KeysWhere(k, c, false, b)
    decreases |a|
  {
    if a == [] {
      assert b + a == b;
      KeysOfAll(k, c, false, b);
    } else {
      var front := a[..|a| - 1];
      assert (b + a)[..|b + a| - 1] == b + front;
      DirtyFirst(k, c, b, front);
      KeysConcat(k, c, true, b, front);
      KeysConcat(k, c, false, b, front);
      KeysOfAll(k, c, false, b);
      KeysOfAll(k, c, true, front);
    }
  }

  function Only<T>(c: T -> bool, want: bool, s: seq<T>): seq<T> {
    if s == [] then [] else Only(c, want, s[..|s| - 1]) + if c(s[|s| - 1]) == want then [s[|s| - 1]] else []
  }

  lemma {:induction false} OnlyAll<T>(c: T -> bool, want: bool, s: seq<T>)
    ensures All(c, want, Only(c, want, s))
  {
    if s != [] { OnlyAll(c, want, s[..|s| - 1]); }
  }

  lemma {:induction false} OnlyBoth<T>(c: T -> bool, s: seq<T>)
    ensures multiset(Only(c, true, s)) + multiset(Only(c, false, s)) == multiset(s)
  {
    if s != [] {
      var front, x := s[..|s| - 1], s[|s| - 1];
      OnlyBoth(c, front);
      assert s == front + [x];
      assert multiset(s) == multiset(front) + multiset{x};
    }
  }

  lemma {:induction false} OnlyKeys<T, K>(k: T -> Option<K>, c: T -> bool, want: bool, s: seq<T>)
    ensures KeysWhere(k, c, want, Only(c, want, s)) == KeysWhere(k, c, want, s)
  {
    if s != [] {
      var front, x := s[..|s| - 1], s[|s| - 1];
      OnlyKeys(k, c, want, front);
      var o := Only(c, want, front);
      if c(x) == want { KeysAppend(k, c, want, o, x); } else { assert Only(c, want, s) == o; }
    }
  }

  lemma KeysAppend<T, K>(k: T -> Option<K>, c: T -> bool, want: bool, s: seq<T>, x: T)
    ensures KeysWhere(k, c, want, s + [x]) == KeysWhere(k, c, want, s) + if c(x) == want && k(x).Some?
              then {k(x).value} else {}
  {
    assert (s + [x])[..|s|] == s;
  }

  lemma {:induction false} SomesAreKeys<T, K>(k: T -> Option<K>, c: T -> bool, s: seq<T>, n: nat)
    requires n <= |s|
    ensures Somes(Map(k, s), n) == Keys(k, c, s[..n])
  {
    if n > 0 {
      SomesAreKeys(k, c, s, n - 1);
      assert s[..n] == s[..n - 1] + [s[n - 1]];
      KeysAppend(k, c, true, s[..n - 1], s[n - 1]);
      KeysAppend(k, c, false, s[..n - 1], s[n - 1]);
    }
  }

  // ----- What does not depend on the order -----

  lemma {:induction false} InKeys<T, K>(k: T -> Option<K>, c: T -> bool, want: bool, s: seq<T>, p: K)
    ensures p in KeysWhere(k, c, want, s) <==> exists i :: 0 <= i < |s| && c(s[i]) == want && k(s[i]) == Some(p)
  {
    if s != [] { InKeys(k, c, want, s[..|s| - 1], p); }
  }

  lemma KeysPermute<T, K>(k: T -> Option<K>, c: T -> bool, want: bool, a: seq<T>, b: seq<T>)
    requires multiset(a) == multiset(b)
    ensures KeysWhere(k, c, want, a) == KeysWhere(k, c, want, b)
  {
    SameMultiset(a, b);
    KeysWithin(k, c, want, a, b);
    KeysWithin(k, c, want, b, a);
  }

  lemma KeysWithin<T, K>(k: T -> Option<K>, c: T -> bool, want: bool, a: seq<T>, b: seq<T>)
    requires forall x :: x in a ==> x in b
    ensures KeysWhere(k, c, want, a) <= KeysWhere(k, c, want, b)
  {
    forall p | p in KeysWhere(k, c, want, a) ensures p in KeysWhere(k, c, want, b) {
      InKeys(k, c, want, a, p);
      InKeys(k, c, want, b, p);
      var i :| 0 <= i < |a| && c(a[i]) == want && k(a[i]) == Some(p);
      assert a[i] in b;
    }
  }

  lemma {:induction false} WhereConcat<T>(f: T -> bool, a: seq<T>, b: seq<T>)
    ensures CountWhere(f, a + b) == CountWhere(f, a) + CountWhere(f, b)
    decreases |b|
  {
    if b == [] {
      assert a + b == a;
    } else {
      assert (a + b)[..|a + b| - 1] == a + b[..|b| - 1];
      WhereConcat(f, a, b[..|b| - 1]);
    }
  }

  lemma {:induction false} WherePermute<T>(f: T -> bool, a: seq<T>, b: seq<T>)
    requires multiset(a) == multiset(b)
    ensures CountWhere(f, a) == CountWhere(f, b)
    decreases |a|
  {
    SameMultiset(a, b);
    if a != [] {
      var i := TakeOut(a, b);
      var front, x := a[..|a| - 1], [a[|a| - 1]];
      WherePermute(f, front, b[..i] + b[i + 1..]);
      WhereConcat(f, b[..i] + x, b[i + 1..]);
      WhereConcat(f, b[..i], x);
      WhereConcat(f, b[..i], b[i + 1..]);
      WhereConcat(f, front, x);
      assert front + x == a;
    }
  }

  // In any order the count lies between these two, and two orders reach them.
  function Most<T, K(==)>(k: T -> Option<K>, c: T -> bool, s: seq<T>): nat {
    CountWhere(Unkeyed(k, c), s) + |KeysWhere(k, c, true, s)|
  }

  function Mixed<T, K(==)>(k: T -> Option<K>, c: T -> bool, s: seq<T>): set<K> {
    KeysWhere(k, c, true, s) * KeysWhere(k, c, false, s)
  }

  lemma FreshRange<T, K>(k: T -> Option<K>, c: T -> bool, s: seq<T>, b: seq<T>)
    requires multiset(b) == multiset(s)
    ensures Most(k, c, s) - |Mixed(k, c, s)| <= CountFresh(k, c, b) <= Most(k, c, s)
  {
    FreshSplits(k, c, b);
    FirstCleanBounds(k, c, b);
    WherePermute(Unkeyed(k, c), s, b);
    KeysPermute(k, c, true, s, b);
    KeysPermute(k, c, false, s, b);
    var clean, dirty := KeysWhere(k, c, true, s), KeysWhere(k, c, false, s);
    SubsetSize(clean - dirty, FirstClean(k, c, b));
    SubsetSize(FirstClean(k, c, b), clean);
    assert clean == (clean - dirty) + clean * dirty;
  }

  lemma {:induction false} SubsetSize<K>(a: set<K>, b: set<K>)
    requires a <= b
    ensures |a| <= |b|
  {
    assert b == a + (b - a);
  }

  lemma FreshEnds<T, K>(k: T -> Option<K>, c: T -> bool, s: seq<T>) returns (most: seq<T>, least: seq<T>)
    ensures multiset(most) == multiset(s) && CountFresh(k, c, most) == Most(k, c, s)
    ensures multiset(least) == multiset(s) && CountFresh(k, c, least) == Most(k, c, s) - |Mixed(k, c, s)|
  {
    var a, b := Only(c, true, s), Only(c, false, s);
    most, least := a + b, b + a;
    OnlyBoth(c, s);
    CleanFirstCounts(k, c, s, a, b);
    DirtyFirstCounts(k, c, s, a, b);
  }

  lemma CleanFirstCounts<T, K>(k: T -> Option<K>, c: T -> bool, s: seq<T>, a: seq<T>, b: seq<T>)
    requires a == Only(c, true, s) && b == Only(c, false, s) && multiset(a + b) == multiset(s)
    ensures CountFresh(k, c, a + b) == Most(k, c, s)
  {
    OnlyAll(c, true, s);
    OnlyAll(c, false, s);
    OnlyKeys(k, c, true, s);
    CleanFirst(k, c, a, b);
    FreshSplits(k, c, a + b);
    WherePermute(Unkeyed(k, c), s, a + b);
  }

  lemma DirtyFirstCounts<T, K>(k: T -> Option<K>, c: T -> bool, s: seq<T>, a: seq<T>, b: seq<T>)
    requires a == Only(c, true, s) && b == Only(c, false, s) && multiset(b + a) == multiset(s)
    ensures CountFresh(k, c, b + a) == Most(k, c, s) - |Mixed(k, c, s)|
  {
    OnlyAll(c, true, s);
    OnlyAll(c, false, s);
    OnlyKeys(k, c, true, s);
    OnlyKeys(k, c, false, s);
    DirtyFirst(k, c, b, a);
    FreshSplits(k, c, b + a);
    WherePermute(Unkeyed(k, c), s, b + a);
    var clean, dirty := KeysWhere(k, c, true, s), KeysWhere(k, c, false, s);
    assert clean == (clean - dirty) + clean * dirty;
  }
}

/** When the order of the records decides the gate. */
module GateOrder {
  import opened Wrappers
  import opened Occurrences
  import opened FirstOccurrences
  import opened Validation

  function OwnClean(rules: Rec -> seq<Code>): Rec -> bool { r => rules(r) == [] }

  ghost function ErrorLists(rs: seq<Rec>, contents: set<string>, rules: Rec -> seq<Code>): (errors: seq<seq<Code>>)
    ensures |errors| == |rs| && forall i :: 0 <= i < |rs| ==> errors[i] == ErrorsAt(rs, contents, rules, i)
  {
    seq(|rs|, i requires 0 <= i < |rs| => ErrorsAt(rs, contents, rules, i))
  }

  // The records that carry an error.
  ghost function Invalid(rs: seq<Rec>, es: seq<Rec>, rules: Rec -> seq<Code>): int {
    |rs| - Clean(ErrorLists(rs, EvalContents(es), rules))
  }

  // The report of a run of the validator on these records, and nothing else is one.
  ghost function ReportOf(rs: seq<Rec>, es: seq<Rec>, rules: Rec -> seq<Code>, failRatio: real): (rep: Report)
    ensures IsReport(rep, rs, es, rules, failRatio)
  {
    var errors := ErrorLists(rs, EvalContents(es), rules);
    AllClean(errors, |errors|);
    var leakage, invalid := Leakage(rs, EvalContents(es)), |rs| - Clean(errors);
    Report(errors, Duplicates(rs), leakage, Clean(errors), invalid, GateOf(leakage, invalid, |rs|, failRatio))
  }

  lemma ReportIs(rep: Report, rs: seq<Rec>, es: seq<Rec>, rules: Rec -> seq<Code>, failRatio: real)
    requires IsReport(rep, rs, es, rules, failRatio)
    ensures rep.leakage == Leakage(rs, EvalContents(es)) && rep.invalid == Invalid(rs, es, rules)
    ensures rep.gate == GateOf(rep.leakage, rep.invalid, |rs|, failRatio)
  {
    assert rep.errors == ErrorLists(rs, EvalContents(es), rules);
  }

  // Two orders of the same records get different gates.
  ghost predicate OrderDecides(rs: seq<Rec>, es: seq<Rec>, rules: Rec -> seq<Code>, failRatio: real) {
    exists b: seq<Rec>, c: seq<Rec>, rb: Report, rc: Report ::
      && multiset(b) == multiset(rs) && multiset(c) == multiset(rs)
      && IsReport(rb, b, es, rules, failRatio) && IsReport(rc, c, es, rules, failRatio)
      && rb.gate != rc.gate
  }

  // The least number of invalid records over all orders, and the pairs that occur both with and without
  // an error of the record's own: each can cost one more.
  function Fewest(rs: seq<Rec>, rules: Rec -> seq<Code>): int { |rs| - Most(NormalizedPair, OwnClean(rules), rs) }

  function MixedPairs(rs: seq<Rec>, rules: Rec -> seq<Code>): set<Pair> { Mixed(NormalizedPair, OwnClean(rules), rs) }

  // Without leakage, the valid records are the fresh ones.
  lemma CleanIsFresh(rs: seq<Rec>, contents: set<string>, rules: Rec -> seq<Code>)
    requires Leakage(rs, contents) == 0
    ensures Clean(ErrorLists(rs, contents, rules)) == CountFresh(NormalizedPair, OwnClean(rules), rs)
  {
    forall i: nat | i < |rs|
      ensures ErrorLists(rs, contents, rules)[i] == [] <==> Fresh(NormalizedPair, OwnClean(rules), rs[..i], rs[i])
    {
      CleanRecord(rs, contents, rules, i);
    }
    FreshCounted(NormalizedPair, OwnClean(rules), rs, ErrorLists(rs, contents, rules), |rs|);
    assert rs[..|rs|] == rs;
  }

  lemma {:induction false} FreshCounted<T, K>(k: T -> Option<K>, c: T -> bool, s: seq<T>, errors: seq<seq<Code>>,
      n: nat)
    requires n <= |s| == |errors|
    requires forall i: nat :: i < |s| ==> (errors[i] == [] <==> Fresh(k, c, s[..i], s[i]))
    ensures CleanTo(errors, n) == CountFresh(k, c, s[..n])
  {
    if n > 0 {
      FreshCounted(k, c, s, errors, n - 1);
      assert s[..n][..n - 1] == s[..n - 1] && s[..n][n - 1] == s[n - 1];
    }
  }

  lemma CleanRecord(rs: seq<Rec>, contents: set<string>, rules: Rec -> seq<Code>, i: nat)
    requires i < |rs| && Leakage(rs, contents) == 0
    ensures ErrorLists(rs, contents, rules)[i] == [] <==> Fresh(NormalizedPair, OwnClean(rules), rs[..i], rs[i])
  {
    NoLeakage(rs, contents);
    RepeatsMeansKeyed(NormalizedPair, OwnClean(rules), rs, i);
  }

  lemma RepeatsMeansKeyed<T, K>(k: T -> Option<K>, c: T -> bool, s: seq<T>, i: nat)
    requires i < |s|
    ensures Repeats(Map(k, s), i) <==> k(s[i]).Some? && k(s[i]).value in Keys(k, c, s[..i])
  {
    SomesAreKeys(k, c, s, i);
  }

  lemma InvalidIs(rs: seq<Rec>, es: seq<Rec>, rules: Rec -> seq<Code>)
    requires Leakage(rs, EvalContents(es)) == 0
    ensures Invalid(rs, es, rules) == |rs| - CountFresh(NormalizedPair, OwnClean(rules), rs)
  {
    CleanIsFresh(rs, EvalContents(es), rules);
  }

  lemma InvalidRange(rs: seq<Rec>, b: seq<Rec>, es: seq<Rec>, rules: Rec -> seq<Code>)
    requires multiset(b) == multiset(rs) && Leakage(b, EvalContents(es)) == 0
    ensures Fewest(rs, rules) <= Invalid(b, es, rules) <= Fewest(rs, rules) + |MixedPairs(rs, rules)|
  {
    InvalidIs(b, es, rules);
    FreshRange(NormalizedPair, OwnClean(rules), rs, b);
    SameMultiset(rs, b);
  }

  // Two orders that reach the ends of that range.
  lemma InvalidEnds(rs: seq<Rec>, es: seq<Rec>, rules: Rec -> seq<Code>) returns (most: seq<Rec>, least: seq<Rec>)
    requires Leakage(rs, EvalContents(es)) == 0
    ensures multiset(most) == multiset(least) == multiset(rs)
    ensures Leakage(most, EvalContents(es)) == Leakage(least, EvalContents(es)) == 0
    ensures Invalid(most, es, rules) == Fewest(rs, rules)
    ensures Invalid(least, es, rules) == Fewest(rs, rules) + |MixedPairs(rs, rules)|
  {
    most, least := FreshEnds(NormalizedPair, OwnClean(rules), rs);
    LeakagePermute(rs, most, EvalContents(es));
    LeakagePermute(rs, least, EvalContents(es));
    InvalidIs(most, es, rules);
    InvalidIs(least, es, rules);
    SameMultiset(rs, most);
    SameMultiset(rs, least);
  }

  // The threshold lies above `low` and not above `high` invalid records.
  predicate Inside(failRatio: real, total: nat, low: int, high: int) {
    low as real < failRatio * total as real <= high as real
  }

  // Without leakage, the gate by how many records are invalid.
  lemma GateAt(invalid: nat, total: nat, failRatio: real)
    requires invalid <= total
    ensures GateOf(0, invalid, total, failRatio)
            == if invalid == 0 then PASS else if invalid as real >= failRatio * total as real then FAIL
              else NEEDS_REVIEW
  {
    if total > 0 {
      var q := invalid as real / total as real;
      assert q * total as real == invalid as real;
      if q >= failRatio { assert q * total as real >= failRatio * total as real; }
      if q < failRatio { assert q * total as real < failRatio * total as real; }
    }
  }

  // Two invalid counts, both zero or neither, are told apart by a threshold between them.
  lemma ToldApart(x: nat, y: nat, total: nat, failRatio: real, low: int, high: int)
    requires low <= x <= high && low <= y <= high && x <= total && y <= total
    requires x == 0 <==> y == 0
    requires GateOf(0, x, total, failRatio) != GateOf(0, y, total, failRatio)
    ensures Inside(failRatio, total, low, high)
  {
    GateAt(x, total, failRatio);
    GateAt(y, total, failRatio);
  }

  lemma EndsApart(low: nat, high: nat, total: nat, failRatio: real)
    requires low <= high <= total && (low == 0 <==> high == 0) && Inside(failRatio, total, low, high)
    ensures GateOf(0, low, total, failRatio) != GateOf(0, high, total, failRatio)
  {
    GateAt(low, total, failRatio);
    GateAt(high, total, failRatio);
  }

  lemma ReportsOf(rs: seq<Rec>, b: seq<Rec>, es: seq<Rec>, rules: Rec -> seq<Code>, failRatio: real, rb: Report)
    requires multiset(b) == multiset(rs) && IsReport(rb, b, es, rules, failRatio)
    ensures rb.leakage == Leakage(rs, EvalContents(es)) && |b| == |rs|
    ensures rb.invalid <= |rs| && rb.gate == GateOf(rb.leakage, rb.invalid, |rs|, failRatio)
    ensures rb.leakage == 0 ==> (rb.gate == PASS <==> rb.invalid == 0)
    ensures rb.leakage == 0 ==> Fewest(rs, rules) <= rb.invalid <= Fewest(rs, rules) + |MixedPairs(rs, rules)|
  {
    ReportIs(rb, b, es, rules, failRatio);
    LeakagePermute(rs, b, EvalContents(es));
    SameMultiset(rs, b);
    if rb.leakage == 0 { InvalidRange(rs, b, es, rules); }
  }

  lemma ThresholdInside(rs: seq<Rec>, b: seq<Rec>, c: seq<Rec>, es: seq<Rec>, rules: Rec -> seq<Code>, failRatio: real,
                        rb: Report, rc: Report)
    requires multiset(b) == multiset(rs) && multiset(c) == multiset(rs)
    requires IsReport(rb, b, es, rules, failRatio) && IsReport(rc, c, es, rules, failRatio) && rb.gate != rc.gate
    ensures Leakage(rs, EvalContents(es)) == 0
    ensures Inside(failRatio, |rs|, Fewest(rs, rules), Fewest(rs, rules) + |MixedPairs(rs, rules)|)
  {
    ReportsOf(rs, b, es, rules, failRatio, rb);
    ReportsOf(rs, c, es, rules, failRatio, rc);
    CountsIgnoreOrder(b, c, es, rules, failRatio, rb, rc);
    ToldApart(rb.invalid, rc.invalid, |rs|, failRatio, Fewest(rs, rules), Fewest(rs, rules) + |MixedPairs(rs, rules)|);
  }

  lemma EndsDiffer(rs: seq<Rec>, es: seq<Rec>, rules: Rec -> seq<Code>, failRatio: real)
    requires Leakage(rs, EvalContents(es)) == 0
    requires Inside(failRatio, |rs|, Fewest(rs, rules), Fewest(rs, rules) + |MixedPairs(rs, rules)|)
    ensures OrderDecides(rs, es, rules, failRatio)
  {
    var most, least := InvalidEnds(rs, es, rules);
    var x, y := ReportOf(most, es, rules, failRatio), ReportOf(least, es, rules, failRatio);
    ReportIs(x, most, es, rules, failRatio);
    ReportIs(y, least, es, rules, failRatio);
    ReportsOf(rs, most, es, rules, failRatio, x);
    ReportsOf(rs, least, es, rules, failRatio, y);
    CountsIgnoreOrder(most, least, es, rules, failRatio, x, y);
    EndsApart(x.invalid, y.invalid, |rs|, failRatio);
  }

  // Over all orders the invalid count ranges from the fewest to the fewest plus the mixed pairs, and two
  // orders of the same records get different gates exactly when nothing leaks and the threshold falls
  // inside that range.
  lemma GateDependsOnOrderExactly(rs: seq<Rec>, es: seq<Rec>, rules: Rec -> seq<Code>, failRatio: real)
    ensures OrderDecides(rs, es, rules, failRatio) <==>
              && Leakage(rs, EvalContents(es)) == 0
              && Inside(failRatio, |rs|, Fewest(rs, rules), Fewest(rs, rules) + |MixedPairs(rs, rules)|)
  {
    if b: seq<Rec>, c: seq<Rec>, rb: Report, rc: Report :|
         && multiset(b) == multiset(rs) && multiset(c) == multiset(rs)
         && IsReport(rb, b, es, rules, failRatio) && IsReport(rc, c, es, rules, failRatio)
         && rb.gate != rc.gate
    {
      ThresholdInside(rs, b, c, es, rules, failRatio, rb, rc);
    }
    if Leakage(rs, EvalContents(es)) == 0
       && Inside(failRatio, |rs|, Fewest(rs, rules), Fewest(rs, rules) + |MixedPairs(rs, rules)|)
    {
      EndsDiffer(rs, es, rules, failRatio);
    }
  }
}
