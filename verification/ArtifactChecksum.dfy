/** The checksum shared by the two artifact stores, and the stores' finalize / verify pair.

    A file path or file body is a `string` whose characters stand for bytes. SHA-256 is a function
    parameter `hash`; everything about "different files, different checksum" is stated on the bytes
    fed to it (the preimage). */
module ArtifactChecksum {
  import opened Decimal

  const COLON := ':'

  datatype Entry = Entry(path: string, data: string)

  // ----- Sorting by path (Python compares code points; UTF-8 bytes order the same way) -----

  predicate Leq(a: string, b: string)
    decreases |a|
  {
    a == "" || (b != "" && (a[0] < b[0] || (a[0] == b[0] && Leq(a[1..], b[1..]))))
  }

  function Insert(e: Entry, es: seq<Entry>): seq<Entry> {
    if es == [] || Leq(e.path, es[0].path) then [e] + es else [es[0]] + Insert(e, es[1..])
  }

  // A stable sort by path, as `sorted(entries, key=...)`.
  function Sort(es: seq<Entry>): seq<Entry> {
    if es == [] then [] else Insert(es[0], Sort(es[1..]))
  }

  ghost predicate Sorted(es: seq<Entry>) {
    forall i, j :: 0 <= i < j < |es| ==> Leq(es[i].path, es[j].path)
  }

  ghost predicate DistinctPaths(es: seq<Entry>) {
    forall i, j :: 0 <= i < j < |es| ==> es[i].path != es[j].path
  }

  lemma {:induction false} LeqTotal(a: string, b: string)
    ensures Leq(a, b) || Leq(b, a)
    ensures Leq(a, b) && Leq(b, a) ==> a == b
    decreases |a|
  {
    if a != "" && b != "" && a[0] == b[0] {
      LeqTotal(a[1..], b[1..]);
      assert a == [a[0]] + a[1..] && b == [b[0]] + b[1..];
    }
  }

  lemma {:induction false} LeqTransitive(a: string, b: string, c: string)
    requires Leq(a, b) && Leq(b, c)
    ensures Leq(a, c)
    decreases |a|
  {
    if a != "" && a[0] == b[0] && b[0] == c[0] {
      LeqTransitive(a[1..], b[1..], c[1..]);
    }
  }

  lemma {:induction false} InsertSorted(e: Entry, es: seq<Entry>)
    requires Sorted(es)
    ensures Sorted(Insert(e, es)) && multiset(Insert(e, es)) == multiset(es) + multiset{e}
  {
    if es == [] {
    } else if Leq(e.path, es[0].path) {
      forall j | 0 <= j < |es| ensures Leq(e.path, es[j].path) {
        if j > 0 { LeqTransitive(e.path, es[0].path, es[j].path); }
      }
    } else {
      LeqTotal(e.path, es[0].path);
      var rest := Insert(e, es[1..]);
      InsertSorted(e, es[1..]);
      assert es == [es[0]] + es[1..];
      forall j | 0 <= j < |rest| ensures Leq(es[0].path, rest[j].path) {
        assert rest[j] in multiset(rest);
        if rest[j] != e {
          assert rest[j] in multiset(es[1..]);
          assert rest[j] in es[1..];
        }
      }
    }
  }

  lemma {:induction false} SortSorts(es: seq<Entry>)
    ensures Sorted(Sort(es)) && multiset(Sort(es)) == multiset(es)
  {
    if es != [] {
      SortSorts(es[1..]);
      InsertSorted(es[0], Sort(es[1..]));
      assert es == [es[0]] + es[1..];
    }
  }

  lemma SameHead(a: seq<Entry>, b: seq<Entry>)
    requires Sorted(a) && Sorted(b) && DistinctPaths(a)
    requires multiset(a) == multiset(b) && a != [] && b != []
    ensures a[0] == b[0]
  {
    assert a[0] in multiset(b) && b[0] in multiset(a);
    var i :| 0 <= i < |a| && a[i] == b[0];
    var j :| 0 <= j < |b| && b[j] == a[0];
    LeqTotal(a[0].path, b[0].path);
    LeastFirst(a, i);
    LeastFirst(b, j);
    assert a[0].path == a[i].path;
  }

  lemma LeastFirst(a: seq<Entry>, i: nat)
    requires Sorted(a) && i < |a|
    ensures Leq(a[0].path, a[i].path)
  {
    LeqTotal(a[0].path, a[0].path);
  }

  lemma {:induction false} SortedUnique(a: seq<Entry>, b: seq<Entry>)
    requires Sorted(a) && Sorted(b) && DistinctPaths(a)
    requires multiset(a) == multiset(b)
    ensures a == b
  {
    assert |multiset(a)| == |a| && |multiset(b)| == |b|;
    if a != [] {
      SameHead(a, b);
      assert a == [a[0]] + a[1..] && b == [b[0]] + b[1..];
      assert multiset(a[1..]) == multiset(a) - multiset{a[0]};
      assert multiset(b[1..]) == multiset(b) - multiset{b[0]};
      SortedUnique(a[1..], b[1..]);
    }
  }

  lemma DistinctPathsOfMultiset(a: seq<Entry>, b: seq<Entry>)
    requires DistinctPaths(a) && multiset(a) == multiset(b)
    ensures DistinctPaths(b)
  {
    forall i, j | 0 <= i < j < |b| ensures b[i].path != b[j].path {
      if b[i].path == b[j].path {
        assert b[i] in multiset(a) && b[j] in multiset(a);
        var x :| 0 <= x < |a| && a[x] == b[i];
        var y :| 0 <= y < |a| && a[y] == b[j];
        assert x == y;
        TwiceInMultiset(b, i, j);
        OnceInMultiset(a, x);
        assert false;
      }
    }
  }

  lemma TwiceInMultiset(s: seq<Entry>, i: nat, j: nat)
    requires i < j < |s| && s[i] == s[j]
    ensures multiset(s)[s[i]] >= 2
  {
    assert s == s[..j] + [s[j]] + s[j + 1..];
    assert s[i] in s[..j];
  }

  lemma OnceInMultiset(s: seq<Entry>, i: nat)
    requires i < |s| && DistinctPaths(s)
    ensures multiset(s)[s[i]] == 1
  {
    assert s == s[..i] + [s[i]] + s[i + 1..];
    assert s[i] !in s[..i] && s[i] !in s[i + 1..];
  }

  // ----- The framing -----

  function Frame1(e: Entry): string { e.path + [COLON] + Numeral(|e.data|) + [COLON] + e.data }

  function Frame(es: seq<Entry>): string {
    if es == [] then "" else Frame1(es[0]) + Frame(es[1..])
  }

  lemma FrameStep(es: seq<Entry>, i: nat)
    requires i < |es|
    ensures Frame(es[i..]) == Frame1(es[i]) + Frame(es[i + 1..])
  {
    assert es[i..][1..] == es[i + 1..];
  }

  lemma Regroup(a: string, b: string, c: string)
    ensures (a + b) + c == a + (b + c)
  {
  }

  // What is fed to the hash: the frames of the entries in path order.
  function Preimage(es: seq<Entry>): string { Frame(Sort(es)) }

  // `compute_checksum_from_bytes`: the hash object accumulates one header and one body per entry.
  method ComputeChecksumFromBytes(hash: string -> string, entries: seq<Entry>) returns (digest: string)
    ensures digest == hash(Preimage(entries))
  {
    var sorted := Sort(entries);
    var fed := "";
    var i := 0;
    while i < |sorted|
      invariant 0 <= i <= |sorted|
      invariant fed + Frame(sorted[i..]) == Preimage(entries)
    {
      var e := sorted[i];
      ghost var before := fed;
      fed := fed + e.path + [COLON] + Numeral(|e.data|) + [COLON];
      fed := fed + e.data;
      assert fed == before + Frame1(e);
      FrameStep(sorted, i);
      Regroup(before, Frame1(e), Frame(sorted[i + 1..]));
      i := i + 1;
    }
    assert sorted[i..] == [] && fed + "" == fed;
    digest := hash(fed);
  }

  // The order in which the files were listed does not matter.
  lemma PreimageIgnoresOrder(a: seq<Entry>, b: seq<Entry>)
    requires DistinctPaths(a) && multiset(a) == multiset(b)
    ensures Preimage(a) == Preimage(b)
  {
    SortSorts(a);
    SortSorts(b);
    DistinctPathsOfMultiset(a, Sort(a));
    SortedUnique(Sort(a), Sort(b));
  }

  // A path holds a numeral segment when some ':' in it is followed by a numeral that runs to the
  // next ':' or to the end of the path: exactly the text that can pass for a header.
  ghost predicate NumeralAt(p: string, i: nat, n: nat) {
    var j := i + 1 + |Numeral(n)|;
    i < |p| && p[i] == COLON && j <= |p| && p[i + 1..j] == Numeral(n) && (j == |p| || p[j] == COLON)
  }

  ghost predicate HasNumeralSegment(p: string) { exists i: nat, n: nat :: NumeralAt(p, i, n) }

  ghost predicate Safe(es: seq<Entry>) {
    forall k :: 0 <= k < |es| ==> !HasNumeralSegment(es[k].path)
  }

  lemma ColonFreeIsSafe(p: string)
    requires COLON !in p
    ensures !HasNumeralSegment(p)
  {
    assert forall i: nat :: i < |p| ==> p[i] in p;
  }

  // Where the pieces of a framed text lie.
  lemma HeaderShape(p: string, m: nat, x: string, s: string)
    requires s == p + [COLON] + Numeral(m) + [COLON] + x
    ensures var j := |p| + 1 + |Numeral(m)|;
            && j < |s| && s[..|p|] == p && s[|p|] == COLON && s[|p| + 1..j] == Numeral(m) && s[j] == COLON
            && (forall k :: |p| < k < j ==> s[k] != COLON)
            && s[|p| + 1..] == Numeral(m) + [COLON] + x
  {
    assert forall k :: |p| < k < |p| + 1 + |Numeral(m)| ==>
        s[k] == Numeral(m)[k - |p| - 1] && Digit(Numeral(m)[k - |p| - 1]);
  }

  // If two headers agree as text and one path is the shorter, the longer path contains the shorter
  // header's numeral as a segment.
  lemma HeadersAgree(p: string, m: nat, x: string, q: string, n: nat, y: string)
    requires p + [COLON] + Numeral(m) + [COLON] + x == q + [COLON] + Numeral(n) + [COLON] + y
    ensures |p| < |q| ==> NumeralAt(q, |p|, m)
    ensures |p| == |q| ==> p == q && Numeral(m) + [COLON] + x == Numeral(n) + [COLON] + y
  {
    var s := p + [COLON] + Numeral(m) + [COLON] + x;
    HeaderShape(p, m, x, s);
    HeaderShape(q, n, y, s);
    var j := |p| + 1 + |Numeral(m)|;
    if |p| < |q| {
      assert q[|p| + 1..j] == s[|p| + 1..j];
    }
  }

  lemma NumeralsAgree(m: nat, x: string, n: nat, y: string)
    requires Numeral(m) + [COLON] + x == Numeral(n) + [COLON] + y
    ensures m == n && x == y
  {
    var s := Numeral(m) + [COLON] + x;
    var t := Numeral(n) + [COLON] + y;
    assert s[|Numeral(m)|] == COLON && t[|Numeral(n)|] == COLON;
    assert forall k :: 0 <= k < |Numeral(m)| ==> s[k] == Numeral(m)[k] && Digit(Numeral(m)[k]);
    assert forall k :: 0 <= k < |Numeral(n)| ==> t[k] == Numeral(n)[k] && Digit(Numeral(n)[k]);
    assert |Numeral(m)| == |Numeral(n)|;
    assert Numeral(m) == s[..|Numeral(m)|] && Numeral(n) == t[..|Numeral(m)|];
    NumeralInjective(m, n);
    assert x == s[|Numeral(m)| + 1..] && y == t[|Numeral(m)| + 1..];
  }

  lemma FrameSplits(es: seq<Entry>)
    requires es != []
    ensures Frame(es) == es[0].path + [COLON] + Numeral(|es[0].data|) + [COLON] + (es[0].data + Frame(es[1..]))
  {
  }

  // Unique decoding: over safe paths a framed list determines the entries.
  lemma FrameEmpty(es: seq<Entry>)
    ensures Frame(es) == "" <==> es == []
  {
    if es != [] {
      FrameSplits(es);
      assert Frame(es)[|es[0].path|] == COLON;
    }
  }

  lemma {:induction false} FrameInjective(a: seq<Entry>, b: seq<Entry>)
    requires Safe(a) && Safe(b)
    requires Frame(a) == Frame(b)
    ensures a == b
    decreases |a|
  {
    FrameEmpty(a);
    FrameEmpty(b);
    if a != [] && b != [] {
      FrameSplits(a);
      FrameSplits(b);
      var e, f := a[0], b[0];
      var x, y := e.data + Frame(a[1..]), f.data + Frame(b[1..]);
      HeadersAgree(e.path, |e.data|, x, f.path, |f.data|, y);
      HeadersAgree(f.path, |f.data|, y, e.path, |e.data|, x);
      assert |e.path| == |f.path|;
      NumeralsAgree(|e.data|, x, |f.data|, y);
      assert e.data == x[..|e.data|] && f.data == y[..|e.data|];
      assert Frame(a[1..]) == x[|e.data|..] && Frame(b[1..]) == y[|e.data|..];
      FrameInjective(a[1..], b[1..]);
      assert a == [e] + a[1..] && b == [f] + b[1..];
    }
  }

  // Two file sets with the same preimage are the same file set.
  lemma PreimageDeterminesFiles(a: seq<Entry>, b: seq<Entry>)
    requires Safe(a) && Safe(b)
    requires Preimage(a) == Preimage(b)
    ensures multiset(a) == multiset(b)
  {
    SortSorts(a);
    SortSorts(b);
    SafeSorted(a);
    SafeSorted(b);
    FrameInjective(Sort(a), Sort(b));
  }

  lemma SafeSorted(es: seq<Entry>)
    requires Safe(es)
    ensures Safe(Sort(es))
  {
    SortSorts(es);
    var s := Sort(es);
    forall k | 0 <= k < |s| ensures !HasNumeralSegment(s[k].path) {
      assert s[k] in multiset(es);
      assert s[k] in es;
    }
  }

  // The restriction is needed: with a ':' in a path two different file sets share one preimage.
  lemma ColonPathsCollide()
    ensures var a := [Entry("x", "1:0:")]; var b := [Entry("x:4:1", "")];
            Preimage(a) == Preimage(b) && multiset(a) != multiset(b)
  {
    var a := [Entry("x", "1:0:")];
    var b := [Entry("x:4:1", "")];
    assert Numeral(4) == "4" && Numeral(0) == "0";
    assert Sort(a) == a && Sort(b) == b;
    assert Frame(a[1..]) == "" && Frame(b[1..]) == "";
    assert Frame(a) == "x:4:1:0:" == Frame(b);
    assert a[0] != b[0];
    assert a[0] in multiset(a) && a[0] !in multiset(b);
  }
}
