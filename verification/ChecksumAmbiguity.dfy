/** Which paths make the checksum framing ambiguous.

    Over paths without a numeral segment the framing is uniquely decodable. This module admits one more
    path `p` beside them and says exactly when two different file sets then share a preimage: when the
    text of `p`, opened at its first numeral segment, can be read on as the sorted frames of another set.

    What a path may be is the parameter `legal`: a store may exclude some names. It admits only UTF-8
    names, and the few greatest names of `Names`. */
module ChecksumAmbiguity {
  import opened Decimal
  import opened ArtifactChecksum
  import opened FileNames
  import ArtifactStores

  type Legal = string -> bool

  function NumeralTop(k: nat): string { "9:" + (NINE + Top(k)) }

  ghost predicate Names(legal: Legal) {
    && (forall q :: legal(q) ==> q != "" && Utf8(q))
    && (forall k: nat :: k > 0 ==> legal(Top(k)) && legal([COLON] + Top(k)))
    && (forall k: nat :: k > 0 ==> legal(NumeralTop(k)))
  }

  // A file of path r may come after one of path q: later in the order, and not in a directory named q.
  predicate After(q: string, r: string) { Lt(q, r) && !Inside(r, q) }

  ghost predicate Arranged(es: seq<Entry>) { forall i, j :: 0 <= i < j < |es| ==> After(es[i].path, es[j].path) }

  ghost predicate Above(before: set<string>, es: seq<Entry>) {
    forall q, k :: q in before && 0 <= k < |es| ==> After(q, es[k].path)
  }

  // A name without a numeral segment, or `p` besides.
  ghost predicate Admitted(legal: Legal, p: string, safe: bool, q: string) {
    legal(q) && (!HasNumeralSegment(q) || (!safe && q == p))
  }

  ghost predicate Within(legal: Legal, es: seq<Entry>, p: string, safe: bool) {
    forall k :: 0 <= k < |es| ==> Admitted(legal, p, safe, es[k].path) && Bytes(es[k].data)
  }

  // Files that can exist side by side.
  ghost predicate FileSet(es: seq<Entry>) {
    DistinctPaths(es) && forall i, j :: 0 <= i < |es| && 0 <= j < |es| ==> !Inside(es[i].path, es[j].path)
  }

  // File sets over these paths that collide.
  ghost predicate Ambiguous(legal: Legal, p: string) {
    exists a: seq<Entry>, b: seq<Entry> :: Collide(legal, p, a, b)
  }

  ghost predicate Collide(legal: Legal, p: string, a: seq<Entry>, b: seq<Entry>) {
    && FileSet(a) && FileSet(b) && Within(legal, a, p, false) && Within(legal, b, p, false)
    && multiset(a) != multiset(b) && Preimage(a) == Preimage(b)
  }

  // ----- Reading a path as frames -----

  // The first numeral segment of y: the text before it has none.
  ghost predicate FirstSegment(y: string, i: nat, m: nat) { NumeralAt(y, i, m) && !HasNumeralSegment(y[..i]) }

  // What follows the header that a segment of y passes for, up to the colon that ends y.
  function AfterHeader(y: string, i: nat, m: nat): string
    requires i + 1 + |Numeral(m)| <= |y|
  {
    (y + [COLON])[i + 2 + |Numeral(m)|..]
  }

  // `p` and its colon begin with r, a numeral and a colon.
  ghost predicate Reenters(p: string, r: string, n: nat, v: string) { p + [COLON] == r + Numeral(n) + [COLON] + v }

  ghost predicate AllBelow(before: set<string>, r: string) { forall q :: q in before ==> Lt(q, r) }

  // A name that starts with a numeral, ended by its own end or a colon, can come after these; the data the
  // numeral counts holds whole characters.
  ghost predicate NumeralAfter(before: set<string>) { exists k: nat :: AllBelow(before, NumeralTop(k)) }

  // A name that starts with a colon can come after these.
  ghost predicate ColonAfter(before: set<string>) { exists k: nat :: AllBelow(before, [COLON] + Top(k)) }

  ghost predicate Next(legal: Legal, before: set<string>, q: string) {
    legal(q) && forall r :: r in before ==> After(r, q)
  }

  // An entry with n bytes of data has been opened inside the text of p, after entries of the paths
  // `before`, and w is what is left of that text; after w come a length of our choice, data and further
  // entries. Can the text be read on as sorted frames? Once p itself has been read as a path (`safe`), no
  // path may have a segment.
  ghost predicate Reads(legal: Legal, p: string, before: set<string>, n: nat, w: string, safe: bool)
    decreases if safe then 0 else 1, |w|
  {
    if n > |w| + 1 then true
    else if n == |w| + 1 then ColonAfter(before)
    else if n == |w| then NumeralAfter(before)
    else
      var y := w[n..|w| - 1];
      || (!HasNumeralSegment(y) && Next(legal, before, y))
      || (exists i: nat, m: nat :: FirstSegment(y, i, m) && Next(legal, before, y[..i])
                                   && Reads(legal, p, before + {y[..i]}, m, AfterHeader(y, i, m), safe))
      || (!safe && Next(legal, before, p)
          && exists k: nat, v: string :: Reenters(p, w[n..], k, v) && Reads(legal, p, {p}, k, v, true))
  }

  // The text after w: a header's length, its data, further frames.
  function Tail(d: string, es: seq<Entry>): string { Numeral(|d|) + [COLON] + (d + Frame(es)) }

  predicate Closed(w: string) { w == "" || w[|w| - 1] == COLON }

  lemma FramesHead(es: seq<Entry>)
    requires es != []
    ensures Frame(es) == es[0].path + [COLON] + Tail(es[0].data, es[1..])
  {
    FrameSplits(es);
    var e := es[0];
    assert e.path + [COLON] + Numeral(|e.data|) + [COLON] + (e.data + Frame(es[1..]))
             == e.path + [COLON] + Tail(e.data, es[1..]);
  }

  lemma HeaderSplit(y: string, i: nat, m: nat)
    requires NumeralAt(y, i, m)
    ensures y + [COLON] == y[..i] + [COLON] + Numeral(m) + [COLON] + AfterHeader(y, i, m)
    ensures Closed(AfterHeader(y, i, m)) && |AfterHeader(y, i, m)| < |y|
  {
    var j := i + 1 + |Numeral(m)|;
    assert y[..j] == y[..i] + [COLON] + Numeral(m);
    assert (y + [COLON])[j] == COLON;
    assert y + [COLON] == y[..j] + [COLON] + (y + [COLON])[j + 1..];
  }

  // ----- A collision can be read off p -----

  lemma ReadsOn(legal: Legal, p: string, before: set<string>, n: nat, w: string, safe: bool)
    requires n < |w|
    ensures !HasNumeralSegment(w[n..|w| - 1]) && Next(legal, before, w[n..|w| - 1]) ==>
              Reads(legal, p, before, n, w, safe)
  {
  }

  lemma ReadsCut(legal: Legal, p: string, before: set<string>, n: nat, w: string, safe: bool, i: nat, m: nat)
    requires n < |w|
    requires var y := w[n..|w| - 1];
             FirstSegment(y, i, m) && Next(legal, before, y[..i])
             && Reads(legal, p, before + {y[..i]}, m, AfterHeader(y, i, m), safe)
    ensures Reads(legal, p, before, n, w, safe)
  {
  }

  lemma ReadsSelf(legal: Legal, p: string, before: set<string>, n: nat, w: string, k: nat, v: string)
    requires n < |w| && Next(legal, before, p) && Reenters(p, w[n..], k, v) && Reads(legal, p, {p}, k, v, true)
    ensures Reads(legal, p, before, n, w, false)
  {
  }

  // Inside w: the next frame starts where the opened data ends.
  lemma NextFrame(w: string, d: string, a: seq<Entry>, x: string, b: seq<Entry>)
    requires Closed(w) && |x| < |w| && w + Tail(d, a) == x + Frame(b)
    ensures b != []
    ensures var y := w[|x|..|w| - 1];
            w[|x|..] == y + [COLON] && (y + [COLON]) + Tail(d, a) == b[0].path + [COLON] + Tail(b[0].data, b[1..])
  {
    Peel(w, Tail(d, a), x, Frame(b));
    assert w[|x|..] == w[|x|..|w| - 1] + [COLON];
    assert b != [];
    FramesHead(b);
  }

  lemma Follow(legal: Legal, before: set<string>, b: seq<Entry>, p: string, safe: bool)
    requires b != [] && Arranged(b) && Above(before, b) && Within(legal, b, p, safe)
    ensures Arranged(b[1..]) && Above(before + {b[0].path}, b[1..]) && Above({b[0].path}, b[1..])
    ensures Within(legal, b[1..], p, safe) && Next(legal, before, b[0].path)
    ensures b[0].path == p ==> Within(legal, b[1..], p, true)
  {
    var rest := b[1..];
    assert forall k :: 0 <= k < |rest| ==> rest[k] == b[k + 1];
  }

  lemma {:induction false} CollisionReads(legal: Legal, p: string, before: set<string>, w: string, safe: bool,
                                          d: string, a: seq<Entry>, x: string, b: seq<Entry>)
    requires Names(legal) && Closed(w) && |w| <= |p| && w + Tail(d, a) == x + Frame(b)
    requires Arranged(b) && Above(before, b) && Within(legal, b, p, safe)
    requires Within(legal, a, p, false)
    requires !safe ==> Arranged(a) && Above({p}, a) && Within(legal, a, p, true)
    ensures Reads(legal, p, before, |x|, w, safe)
    decreases if safe then 0 else 1, |w|
  {
    var n := |x|;
    if n > |w| + 1 {
    } else if n >= |w| {
      ReadsPastEnd(legal, p, before, safe, w, d, a, x, b);
    } else {
      var y := w[n..|w| - 1];
      NextFrame(w, d, a, x, b);
      Follow(legal, before, b, p, safe);
      var z, e, rest := b[0].path, b[0].data, b[1..];
      SameHeaders(y, d, a, z, e, rest);
      if |z| == |y| {
        ReadsOn(legal, p, before, n, w, safe);
      } else if |z| < |y| {
        HeaderSplit(y, |z|, |e|);
        PeelHeader(z, |e|, AfterHeader(y, |z|, |e|), d, a, e, rest, y);
        CollisionReads(legal, p, before + {z}, AfterHeader(y, |z|, |e|), safe, d, a, e, rest);
        ReadsCut(legal, p, before, n, w, safe, |z|, |e|);
      } else {
        assert HasNumeralSegment(z);
        HeaderSplit(p, |y|, |d|);
        var v := AfterHeader(p, |y|, |d|);
        PeelHeader(y, |d|, v, e, rest, d, a, p);
        CollisionReads(legal, p, {p}, v, true, e, rest, d, a);
        ReadsSelf(legal, p, before, n, w, |d|, v);
      }
    }
  }

  lemma Peel(w: string, t: string, x: string, f: string)
    requires w + t == x + f && |x| <= |w|
    ensures w[|x|..] + t == f && x == w[..|x|]
  {
    assert (w + t)[|x|..] == w[|x|..] + t && (x + f)[|x|..] == f;
    assert (w + t)[..|x|] == w[..|x|] && (x + f)[..|x|] == x;
  }

  // y: and z: begin the same text of frames: one is the other, or the longer holds the shorter's header.
  lemma SameHeaders(y: string, d: string, a: seq<Entry>, z: string, e: string, rest: seq<Entry>)
    requires (y + [COLON]) + Tail(d, a) == z + [COLON] + Tail(e, rest)
    ensures |y| == |z| ==> y == z
    ensures |z| < |y| ==> NumeralAt(y, |z|, |e|) && z == y[..|z|]
    ensures |y| < |z| ==> NumeralAt(z, |y|, |d|) && y == z[..|y|]
  {
    var s, t := d + Frame(a), e + Frame(rest);
    HeaderText(y, |d|, s);
    HeaderText(z, |e|, t);
    HeadersAgree(y, |d|, s, z, |e|, t);
    HeadersAgree(z, |e|, t, y, |d|, s);
    Shorter(y, z, Tail(d, a), Tail(e, rest));
  }

  lemma HeaderText(y: string, m: nat, s: string)
    ensures (y + [COLON]) + (Numeral(m) + [COLON] + s) == y + [COLON] + Numeral(m) + [COLON] + s
  {
  }

  lemma Shorter(y: string, z: string, s: string, t: string)
    requires (y + [COLON]) + s == z + [COLON] + t
    ensures |z| < |y| ==> z == y[..|z|]
    ensures |y| < |z| ==> y == z[..|y|]
  {
    var text := (y + [COLON]) + s;
    assert text[..|y|] == y && text[..|z|] == z;
    assert |z| < |y| ==> text[..|y|][..|z|] == text[..|z|];
    assert |y| < |z| ==> text[..|z|][..|y|] == text[..|y|];
  }

  // Dropping the header z:|e|: that the text y: begins with.
  lemma PeelHeader(z: string, m: nat, w: string, d: string, a: seq<Entry>, e: string, rest: seq<Entry>, y: string)
    requires m == |e| && y + [COLON] == z + [COLON] + Numeral(m) + [COLON] + w
    requires (y + [COLON]) + Tail(d, a) == z + [COLON] + Tail(e, rest)
    ensures w + Tail(d, a) == e + Frame(rest)
  {
    var head := z + [COLON] + Numeral(m) + [COLON];
    assert (y + [COLON]) + Tail(d, a) == head + (w + Tail(d, a));
    assert z + [COLON] + Tail(e, rest) == head + (e + Frame(rest));
    assert (head + (w + Tail(d, a)))[|head|..] == w + Tail(d, a);
    assert (head + (e + Frame(rest)))[|head|..] == e + Frame(rest);
  }

  lemma BelowThrough(before: set<string>, z: string, top: string)
    requires AllBelow(before, z) && Lt(z, top)
    ensures AllBelow(before, top)
  {
    forall q | q in before ensures Lt(q, top) { LtTransitive(q, z, top); }
  }

  // The opened data ends at the end of w, or one character later.
  lemma ReadsPastEnd(legal: Legal, p: string, before: set<string>, safe: bool, w: string, d: string, a: seq<Entry>,
                     x: string, b: seq<Entry>)
    requires Names(legal) && w + Tail(d, a) == x + Frame(b) && |w| <= |x| <= |w| + 1
    requires Above(before, b) && Within(legal, b, p, safe) && Within(legal, a, p, false)
    ensures if |x| == |w| then NumeralAfter(before) else ColonAfter(before)
  {
    var t, k := Tail(d, a), |x| - |w|;
    assert t[k..] == Frame(b) by {
      assert (w + t)[|x|..] == t[k..] && (x + Frame(b))[|x|..] == Frame(b);
    }
    assert b != [];
    FramesHead(b);
    var z := b[0].path;
    assert legal(z) && AllBelow(before, z);
    if k == 0 {
      assert a != [] ==> legal(a[0].path);
      NumeralPlace(z, d, a, Tail(b[0].data, b[1..]));
      BelowThrough(before, z, NumeralTop(|z| + 1));
    } else {
      assert z[0] == Frame(b)[0] == t[1];
      assert t[1] == (if |Numeral(|d|)| == 1 then COLON else Numeral(|d|)[1]);
      assert |Numeral(|d|)| > 1 ==> Digit(Numeral(|d|)[1]);
      ColonPlace(z);
      BelowThrough(before, z, [COLON] + Top(|z| + 1));
    }
  }

  lemma ColonPlace(z: string)
    requires z != "" && Utf8(z) && z[0] <= COLON
    ensures Lt(z, [COLON] + Top(|z| + 1))
  {
    if z[0] == COLON {
      assert z == [COLON] + z[1..];
      TopAbove(z[1..], |z| + 1);
      LtBehind([COLON], z[1..], Top(|z| + 1));
    } else {
      LtAt(z, [COLON] + Top(|z| + 1), 0);
    }
  }

  // A name before a colon where a text begins with digits and a colon.
  lemma AfterDigits(z: string, r: string, m: string, x: string)
    requires z + [COLON] + r == m + [COLON] + x && AllDigits(m)
    ensures |z| >= |m| && z[..|m|] == m
    ensures |z| > |m| ==> z[|m|] == COLON && z[|m| + 1..] + ([COLON] + r) == x
  {
    var t := z + [COLON] + r;
    assert t == m + [COLON] + x;
    assert t[|z|] == COLON && t[|m|] == COLON && t[..|m|] == m && t[..|z|] == z;
    assert forall i :: 0 <= i < |m| ==> t[i] == m[i] && Digit(m[i]);
    if |z| > |m| {
      assert z + [COLON] + r == z[..|m|] + [COLON] + (z[|m| + 1..] + ([COLON] + r));
      assert t[|m| + 1..] == x && t[|m| + 1..] == z[|m| + 1..] + ([COLON] + r);
    }
  }

  // A name at the start of a length, its data and the frames behind: of these the greatest begin with 9,
  // a colon and nine bytes.
  lemma NumeralPlace(z: string, d: string, a: seq<Entry>, r: string)
    requires z != "" && Utf8(z) && (a != [] ==> a[0].path != "" && Utf8(a[0].path))
    requires z + [COLON] + r == Tail(d, a)
    ensures Lt(z, NumeralTop(|z| + 1))
  {
    var m := Numeral(|d|);
    AfterDigits(z, r, m, d + Frame(a));
    assert z[0] == z[..|m|][0];
    if m[0] == '9' && |m| == 1 && |z| > 1 {
      NinePlace(z, d, a, r);
    } else {
      assert |m| > 1 ==> z[1] == z[..|m|][1];
      NotNinePlace(z, m);
    }
  }

  lemma NotNinePlace(z: string, m: string)
    requires m != "" && AllDigits(m) && |m| <= |z| && z[0] == m[0] && (|m| > 1 ==> z[1] == m[1])
    requires m[0] != '9' || |m| > 1 || |z| == 1
    ensures Lt(z, NumeralTop(|z| + 1))
  {
    var top := NumeralTop(|z| + 1);
    assert top[0] == '9' && top[1] == COLON;
    LtAt(z, top, if m[0] != '9' then 0 else 1);
  }

  lemma NinePlace(z: string, d: string, a: seq<Entry>, r: string)
    requires Utf8(z) && |z| > 1 && |Numeral(|d|)| == 1 && Numeral(|d|)[0] == '9'
    requires a != [] ==> a[0].path != "" && Utf8(a[0].path)
    requires z + [COLON] + r == Tail(d, a)
    ensures Lt(z, NumeralTop(|z| + 1))
  {
    AfterDigits(z, r, Numeral(|d|), d + Frame(a));
    var u := z[2..];
    assert z[0] == z[..1][0];
    assert z == "9:" + u;
    assert z[1..][1..] == u;
    IsNine(|d|);
    if |u| >= 9 { NineWhole(u, [COLON] + r, d, a); }
    NineAbove(u, |z| + 1);
    LtBehind("9:", u, NINE + Top(|z| + 1));
  }

  lemma IsNine(n: nat)
    requires |Numeral(n)| == 1 && Numeral(n)[0] == '9'
    ensures n == 9
  {
    assert Numeral(9) == "9" == Numeral(n);
    NumeralInjective(n, 9);
  }

  lemma NineWhole(u: string, r: string, d: string, a: seq<Entry>)
    requires Utf8(u) && |u| >= 9 == |d| && r != "" && u + r == d + Frame(a)
    requires a != [] ==> a[0].path != "" && Utf8(a[0].path)
    ensures Utf8(u[..9])
  {
    DropBoth(u, r, d, Frame(a));
    assert a != [];
    FirstCharacter(a);
    Utf8Cut(u[..9], u[9..]);
  }

  lemma DropBoth(u: string, r: string, d: string, f: string)
    requires u + r == d + f && |d| <= |u|
    ensures u == u[..|d|] + u[|d|..] && u[|d|..] + r == f
    ensures |d| < |u| && f != "" ==> u[|d|] == f[0]
  {
    assert (u + r)[|d|..] == u[|d|..] + r && (d + f)[|d|..] == f;
  }

  lemma FirstCharacter(a: seq<Entry>)
    requires a != [] && a[0].path != ""
    ensures Frame(a) != "" && Frame(a)[0] == a[0].path[0]
  {
    FramesHead(a);
  }

  // ----- A reading of p makes a collision -----

  lemma SegmentDigit(p: string, i: nat, n: nat)
    ensures NumeralAt(p, i, n) ==> i + 1 < |p| && Digit(p[i + 1])
  {
    assert i + 1 + |Numeral(n)| <= |p| ==> p[i + 1..i + 1 + |Numeral(n)|][0] == p[i + 1];
  }

  // The greatest names are single components without a numeral segment.
  lemma GreatestNames(k: nat)
    ensures '/' !in Top(k) && '/' !in [COLON] + Top(k) && '/' !in NumeralTop(k)
    ensures !HasNumeralSegment(Top(k)) && !HasNumeralSegment([COLON] + Top(k)) && !HasNumeralSegment(NumeralTop(k))
  {
    TopSize(k);
    var s, t := [COLON] + Top(k), NumeralTop(k);
    assert forall i :: 2 <= i < |t| ==> t[i] >= '\U{007F}';
    forall i: nat, n: nat ensures !NumeralAt(Top(k), i, n) && !NumeralAt(s, i, n) && !NumeralAt(t, i, n) {
      SegmentDigit(s, i, n);
      SegmentDigit(t, i, n);
    }
  }

  ghost predicate AllLegal(legal: Legal, before: set<string>) { forall q :: q in before ==> legal(q) }

  lemma {:induction false} Longest(before: set<string>) returns (k: nat)
    ensures k > 0 && forall q :: q in before ==> |q| < k
    decreases |before|
  {
    if before == {} {
      k := 1;
    } else {
      var q :| q in before;
      k := Longest(before - {q});
      k := if |q| < k then k else |q| + 1;
      assert before == (before - {q}) + {q};
    }
  }

  lemma TopAboveAll(legal: Legal, before: set<string>, k: nat)
    requires Names(legal) && AllLegal(legal, before) && forall q :: q in before ==> |q| < k
    ensures AllBelow(before, Top(k))
  {
    forall q | q in before ensures Lt(q, Top(k)) { TopAbove(q, k); }
  }

  // Data and further entries for both sides once p has been read to its end; `other` are the paths that
  // the other side has had.
  datatype Reading = Reading(d: string, a: seq<Entry>, x: string, b: seq<Entry>)

  ghost predicate Completes(legal: Legal, p: string, other: set<string>, before: set<string>, n: nat, w: string,
                            safe: bool, c: Reading) {
    && |c.x| == n && Bytes(c.x) && Bytes(c.d) && w + Tail(c.d, c.a) == c.x + Frame(c.b)
    && Arranged(c.a) && Above(other, c.a) && Within(legal, c.a, p, true)
    && Arranged(c.b) && Above(before, c.b) && Within(legal, c.b, p, safe)
  }

  lemma FrameOfEmptyFile(q: string)
    ensures Frame([Entry(q, "")]) == q + ":0:"
  {
    assert Frame([Entry(q, "")][1..]) == "";
    assert Numeral(0) == "0";
  }

  lemma OneEntry(legal: Legal, before: set<string>, q: string, p: string, safe: bool)
    requires Next(legal, before, q) && !HasNumeralSegment(q)
    ensures var es := [Entry(q, "")]; Arranged(es) && Above(before, es) && Within(legal, es, p, safe)
  {
  }

  lemma GreatestFits(legal: Legal, before: set<string>, q: string, p: string, safe: bool)
    requires Filler(legal, q) && AllBelow(before, q)
    ensures var es := [Entry(q, "")]; Arranged(es) && Above(before, es) && Within(legal, es, p, safe)
  {
    forall r | r in before ensures After(r, q) { assert |r| < |q| ==> q[|r|] in q; }
    OneEntry(legal, before, q, p, safe);
  }

  // A length whose numeral, a colon and the data but for r last characters take j + 2 bytes.
  lemma {:induction false} FillerLength(j: nat) returns (size: nat, r: nat)
    ensures |Numeral(size)| - 1 <= j && |Numeral(size)| - 1 + size == j + 4 * r
  {
    size, r := 0, 0;
    if j > 0 {
      size, r := FillerLength(j - 1);
      NextNumeral(size);
      if |Numeral(size + 1)| == |Numeral(size)| { size := size + 1; } else { size, r := size + 4, r + 1; }
    }
  }

  lemma {:induction false} NextNumeral(n: nat)
    ensures || |Numeral(n + 1)| == |Numeral(n)|
            || |Numeral(n + 1)| == |Numeral(n + 4)| == |Numeral(n)| + 1
  {
    if n >= 10 { NextNumeral(n / 10); }
  }

  // A name that fits after any others it is above.
  ghost predicate Filler(legal: Legal, q: string) { legal(q) && !HasNumeralSegment(q) && '/' !in q }

  lemma Fillers(legal: Legal, k: nat)
    requires Names(legal) && k > 0
    ensures Filler(legal, Top(k)) && Filler(legal, [COLON] + Top(k)) && Filler(legal, NumeralTop(k))
  {
    GreatestNames(k);
  }

  lemma CompletesWith(legal: Legal, p: string, other: set<string>, before: set<string>, n: nat, w: string, safe: bool,
                      d: string, q: string, x: string, r: string) returns (c: Reading)
    requires Filler(legal, q) && AllBelow(other, q) && Filler(legal, r) && AllBelow(before, r)
    requires |x| == n && Bytes(x) && Bytes(d)
    requires w + (Numeral(|d|) + [COLON] + (d + (q + ":0:"))) == x + (r + ":0:")
    ensures Completes(legal, p, other, before, n, w, safe, c)
  {
    c := Reading(d, [Entry(q, "")], x, [Entry(r, "")]);
    FrameOfEmptyFile(q);
    FrameOfEmptyFile(r);
    GreatestFits(legal, other, q, p, true);
    GreatestFits(legal, before, r, p, safe);
  }

  // How far the data reaches past w, into a length, its colon and its data.
  lemma Reach(n: nat, w: string) returns (size: nat, f: nat, r: nat)
    requires n > |w| + 1
    ensures size == f + 4 * r && |w| + |Numeral(size)| + 1 + f == n
  {
    size, r := FillerLength(n - |w| - 2);
    f := n - |w| - 1 - |Numeral(size)|;
  }

  lemma CompletesFree(legal: Legal, p: string, other: set<string>, before: set<string>, n: nat, w: string, safe: bool)
      returns (c: Reading)
    requires Names(legal) && AllLegal(legal, other) && AllLegal(legal, before) && Bytes(w) && n > |w| + 1
    ensures Completes(legal, p, other, before, n, w, safe, c)
  {
    var k := Longest(other + before);
    var size, f, r := Reach(n, w);
    var d, x := FreeData(w, size, f, r, Top(k));
    TopConcat(r, k);
    TopAboveAll(legal, other, k);
    TopAboveAll(legal, before, r + k);
    Fillers(legal, k);
    Fillers(legal, r + k);
    c := CompletesWith(legal, p, other, before, n, w, safe, d, Top(k), x, Top(r + k));
  }

  lemma FreeData(w: string, size: nat, f: nat, r: nat, k: string) returns (d: string, x: string)
    requires Bytes(w) && size == f + 4 * r
    ensures |d| == size && Bytes(d) && |x| == |w| + |Numeral(size)| + 1 + f && Bytes(x)
    ensures w + (Numeral(|d|) + [COLON] + (d + (k + ":0:"))) == x + ((Top(r) + k) + ":0:")
  {
    var filler := seq(f, _ => 'x');
    TopSize(r);
    Utf8Bytes(Top(r));
    d, x := filler + Top(r), w + (Numeral(size) + [COLON] + filler);
    FreeTexts(w, filler, Top(r), k, size);
  }

  lemma FreeTexts(w: string, filler: string, t: string, k: string, size: nat)
    requires |filler| + |t| == size
    ensures w + (Numeral(size) + [COLON] + ((filler + t) + (k + ":0:")))
            == (w + (Numeral(size) + [COLON] + filler)) + ((t + k) + ":0:")
  {
    RegroupData(filler, t, k, ":0:");
    RegroupHead(w, Numeral(size) + [COLON], filler, (t + k) + ":0:");
  }

  lemma RegroupData(f: string, t: string, k: string, e: string)
    ensures (f + t) + (k + e) == f + ((t + k) + e)
  {
  }

  lemma RegroupHead(w: string, h: string, f: string, x: string)
    ensures w + (h + (f + x)) == (w + (h + f)) + x
  {
  }

  lemma CompletesColon(legal: Legal, p: string, other: set<string>, before: set<string>, n: nat, w: string, safe: bool)
      returns (c: Reading)
    requires Names(legal) && AllLegal(legal, other) && Bytes(w) && n == |w| + 1 && ColonAfter(before)
    ensures Completes(legal, p, other, before, n, w, safe, c)
  {
    var k0: nat :| AllBelow(before, [COLON] + Top(k0));
    var k1 := Longest(other);
    var k := k0 + k1;
    TopAboveAll(legal, other, k);
    ColonTopGrows(k0, k1);
    StillBelow(before, [COLON] + Top(k0), Top(k1), [COLON] + Top(k));
    c := CompletesColonAt(legal, p, other, before, n, w, safe, k);
  }

  lemma CompletesColonAt(legal: Legal, p: string, other: set<string>, before: set<string>, n: nat, w: string,
      safe: bool, k: nat)
      returns (c: Reading)
    requires Names(legal) && Bytes(w) && n == |w| + 1 && k > 0
    requires AllBelow(other, Top(k)) && AllBelow(before, [COLON] + Top(k))
    ensures Completes(legal, p, other, before, n, w, safe, c)
  {
    Fillers(legal, k);
    ColonTexts(w, Top(k));
    c := CompletesWith(legal, p, other, before, n, w, safe, "", Top(k), w + "0", [COLON] + Top(k));
  }

  lemma ColonTopGrows(k0: nat, k1: nat)
    ensures [COLON] + Top(k0 + k1) == [COLON] + Top(k0) + Top(k1)
  {
    TopConcat(k0, k1);
  }

  lemma ColonTexts(w: string, k: string)
    ensures w + (Numeral(|""|) + [COLON] + ("" + (k + ":0:"))) == (w + "0") + (([COLON] + k) + ":0:")
  {
    assert Numeral(0) == "0";
    assert "" + (k + ":0:") == k + ":0:";
    RegroupZero(w, "0", [COLON], k, ":0:");
  }

  lemma RegroupZero(w: string, o: string, c: string, k: string, e: string)
    ensures w + ((o + c) + (k + e)) == (w + o) + ((c + k) + e)
  {
  }

  lemma StillBelow(before: set<string>, top: string, more: string, q: string)
    requires AllBelow(before, top) && q == top + more
    ensures AllBelow(before, q)
  {
    forall r | r in before ensures Lt(r, q) { LtLonger(r, top, more); }
  }

  lemma CompletesNumeral(legal: Legal, p: string, other: set<string>, before: set<string>, n: nat, w: string,
      safe: bool)
      returns (c: Reading)
    requires Names(legal) && AllLegal(legal, other) && Bytes(w) && n == |w| && NumeralAfter(before)
    ensures Completes(legal, p, other, before, n, w, safe, c)
  {
    var k := NumeralRoom(legal, other, before);
    c := CompletesNumeralAt(legal, p, other, before, n, w, safe, k);
  }

  lemma NumeralRoom(legal: Legal, other: set<string>, before: set<string>) returns (k: nat)
    requires Names(legal) && AllLegal(legal, other) && NumeralAfter(before)
    ensures k > 0 && AllBelow(other, Top(k)) && AllBelow(before, NumeralTop(k))
  {
    var k0: nat :| AllBelow(before, NumeralTop(k0));
    var k1 := Longest(other);
    k := k0 + k1;
    TopAboveAll(legal, other, k);
    NumeralTopGrows(k0, k1);
    StillBelow(before, NumeralTop(k0), Top(k1), NumeralTop(k));
  }

  lemma CompletesNumeralAt(legal: Legal, p: string, other: set<string>, before: set<string>, n: nat, w: string,
      safe: bool, k: nat)
      returns (c: Reading)
    requires Names(legal) && Bytes(w) && n == |w| && k > 0
    requires AllBelow(other, Top(k)) && AllBelow(before, NumeralTop(k))
    ensures Completes(legal, p, other, before, n, w, safe, c)
  {
    Fillers(legal, k);
    NumeralTexts(w, Top(k));
    NineBytes();
    c := CompletesWith(legal, p, other, before, n, w, safe, NINE, Top(k), w, NumeralTop(k));
  }

  lemma NineBytes()
    ensures |NINE| == 9 && Bytes(NINE)
  {
  }

  lemma NumeralTopGrows(k0: nat, k1: nat)
    ensures NumeralTop(k0 + k1) == NumeralTop(k0) + Top(k1)
  {
    TopConcat(k0, k1);
    RegroupTop("9:", NINE, Top(k0), Top(k1));
  }

  lemma RegroupTop(a: string, b: string, c: string, d: string)
    ensures a + (b + (c + d)) == (a + (b + c)) + d
  {
  }

  lemma NumeralTexts(w: string, k: string)
    ensures w + (Numeral(|NINE|) + [COLON] + (NINE + (k + ":0:"))) == w + (("9:" + (NINE + k)) + ":0:")
  {
    assert Numeral(9) == "9" && "9" + [COLON] == "9:";
    RegroupTop("9:", NINE, k, ":0:");
  }

  lemma CompletesOn(legal: Legal, p: string, other: set<string>, before: set<string>, n: nat, w: string, safe: bool)
      returns (c: Reading)
    requires Closed(w) && Bytes(w) && n < |w| && !HasNumeralSegment(w[n..|w| - 1]) && Next(legal, before, w[n..|w| - 1])
    ensures Completes(legal, p, other, before, n, w, safe, c)
  {
    var y := w[n..|w| - 1];
    c := Reading("", [], w[..n], [Entry(y, "")]);
    FrameOfEmptyFile(y);
    assert Tail("", []) == "0:" by { assert Numeral(0) == "0"; }
    assert w == w[..n] + y + [COLON];
    assert w + "0:" == w[..n] + (y + ":0:");
    OneEntry(legal, before, y, p, safe);
  }

  lemma Prepend(legal: Legal, before: set<string>, e: Entry, es: seq<Entry>, p: string, safe: bool)
    requires Next(legal, before, e.path) && Bytes(e.data)
    requires Arranged(es) && Above(before + {e.path}, es) && Within(legal, es, p, safe)
    requires !HasNumeralSegment(e.path) || (!safe && e.path == p)
    ensures Arranged([e] + es) && Above(before, [e] + es) && Within(legal, [e] + es, p, safe)
    ensures Frame([e] + es) == e.path + [COLON] + Tail(e.data, es)
  {
    var all := [e] + es;
    assert all[1..] == es;
    FramesHead(all);
    assert forall k :: 1 <= k < |all| ==> all[k] == es[k - 1];
  }

  lemma {:induction false} ReadingCompletes(legal: Legal, p: string, other: set<string>, before: set<string>, n: nat,
                                            w: string, safe: bool) returns (c: Reading)
    requires Names(legal) && legal(p) && AllLegal(legal, other) && AllLegal(legal, before) && (!safe ==> other == {p})
    requires Closed(w) && Bytes(w) && Reads(legal, p, before, n, w, safe)
    ensures Completes(legal, p, other, before, n, w, safe, c)
    decreases if safe then 0 else 1, |w|
  {
    if n > |w| + 1 {
      c := CompletesFree(legal, p, other, before, n, w, safe);
    } else if n == |w| + 1 {
      c := CompletesColon(legal, p, other, before, n, w, safe);
    } else if n == |w| {
      c := CompletesNumeral(legal, p, other, before, n, w, safe);
    } else {
      var y := w[n..|w| - 1];
      if !HasNumeralSegment(y) && Next(legal, before, y) {
        c := CompletesOn(legal, p, other, before, n, w, safe);
      } else if i: nat, m: nat :| FirstSegment(y, i, m) && Next(legal, before, y[..i])
                                  && Reads(legal, p, before + {y[..i]}, m, AfterHeader(y, i, m), safe) {
        HeaderSplit(y, i, m);
        RestOfHeader(y, i, m);
        var c' := ReadingCompletes(legal, p, other, before + {y[..i]}, m, AfterHeader(y, i, m), safe);
        c := CutCompletes(legal, p, other, before, n, w, safe, i, m, c');
      } else {
        assert !safe && Next(legal, before, p);
        var k: nat, v: string :| Reenters(p, w[n..], k, v) && Reads(legal, p, {p}, k, v, true);
        RestOf(p, w[n..], k, v);
        var c' := ReadingCompletes(legal, p, before + {p}, {p}, k, v, true);
        c := SelfCompletes(legal, p, before, n, w, k, v, c');
      }
    }
  }

  lemma RestOfHeader(y: string, i: nat, m: nat)
    requires Bytes(y) && NumeralAt(y, i, m)
    ensures Bytes(AfterHeader(y, i, m))
  {
    assert Bytes(y + [COLON]);
  }

  lemma RestOf(p: string, r: string, k: nat, v: string)
    requires Utf8(p) && Reenters(p, r, k, v)
    ensures Closed(v) && Bytes(v)
  {
    Utf8Bytes(p);
    var j := |r| + |Numeral(k)| + 1;
    assert v == (p + [COLON])[j..];
    assert v != "" ==> v[|v| - 1] == (p + [COLON])[|p|];
  }

  lemma CutCompletes(legal: Legal, p: string, other: set<string>, before: set<string>, n: nat, w: string, safe: bool,
                     i: nat, m: nat, c': Reading) returns (c: Reading)
    requires Closed(w) && Bytes(w) && n < |w|
    requires var y := w[n..|w| - 1];
             FirstSegment(y, i, m) && Next(legal, before, y[..i])
             && Completes(legal, p, other, before + {y[..i]}, m, AfterHeader(y, i, m), safe, c')
    ensures Completes(legal, p, other, before, n, w, safe, c)
  {
    var y := w[n..|w| - 1];
    var z, w' := y[..i], AfterHeader(y, i, m);
    HeaderSplit(y, i, m);
    Prepend(legal, before, Entry(z, c'.x), c'.b, p, safe);
    c := Reading(c'.d, c'.a, w[..n], [Entry(z, c'.x)] + c'.b);
    var h := z + [COLON] + Numeral(m) + [COLON];
    assert w == w[..n] + (y + [COLON]);
    Reassociate(w[..n], h, w', Tail(c'.d, c'.a));
    FrameBehind(z, c'.x, c'.b, m);
  }

  lemma Reassociate(a: string, b: string, c: string, d: string)
    ensures (a + (b + c)) + d == a + (b + (c + d))
  {
  }

  lemma FrameBehind(z: string, x: string, es: seq<Entry>, m: nat)
    requires |x| == m
    ensures z + [COLON] + Tail(x, es) == (z + [COLON] + Numeral(m) + [COLON]) + (x + Frame(es))
  {
  }

  lemma SelfCompletes(legal: Legal, p: string, before: set<string>, n: nat, w: string, k: nat, v: string, c': Reading)
      returns (c: Reading)
    requires Bytes(w) && n < |w| && Next(legal, before, p) && Reenters(p, w[n..], k, v)
    requires Completes(legal, p, before + {p}, {p}, k, v, true, c')
    ensures Completes(legal, p, {p}, before, n, w, false, c)
  {
    var r := w[n..];
    Prepend(legal, before, Entry(p, c'.d), c'.a, p, false);
    c := Reading(c'.x, c'.b, w[..n], [Entry(p, c'.d)] + c'.a);
    assert w == w[..n] + r;
    assert w + Tail(c.d, c.a) == w[..n] + (r + Numeral(k) + [COLON] + (c'.x + Frame(c'.b)));
    assert Frame(c.b) == (r + Numeral(k) + [COLON] + v) + Tail(c'.d, c'.a)
             == r + Numeral(k) + [COLON] + (v + Tail(c'.d, c'.a));
  }

  // ----- The exact condition -----

  // p, opened at its first numeral segment, can be read on.
  ghost predicate ReadsItself(legal: Legal, p: string) {
    exists i: nat, n: nat :: ReadsFrom(legal, p, i, n)
  }

  ghost predicate ReadsFrom(legal: Legal, p: string, i: nat, n: nat) {
    FirstSegment(p, i, n) && legal(p[..i]) && Reads(legal, p, {p[..i]}, n, AfterHeader(p, i, n), false)
  }

  // Admitting p beside paths without a numeral segment admits two file sets with one preimage exactly
  // when p is a legal name that reads itself.
  lemma AmbiguousExactly(legal: Legal, p: string)
    requires Names(legal)
    ensures Ambiguous(legal, p) <==> legal(p) && ReadsItself(legal, p)
  {
    if Ambiguous(legal, p) {
      var a: seq<Entry>, b: seq<Entry> :| Collide(legal, p, a, b);
      CollisionSorted(legal, p, a, b);
    }
    if legal(p) && ReadsItself(legal, p) { ReadingCollides(legal, p); }
  }

  lemma ReadingCollides(legal: Legal, p: string)
    requires Names(legal) && legal(p) && ReadsItself(legal, p)
    ensures Ambiguous(legal, p)
  {
    var i: nat, n: nat :| ReadsFrom(legal, p, i, n);
    HeaderSplit(p, i, n);
    Utf8Bytes(p);
    var c := ReadingCompletes(legal, p, {p}, {p[..i]}, n, AfterHeader(p, i, n), false);
    var a, b := ReadingPair(legal, p, i, n, c);
    SortedCollide(legal, p, a, b);
  }

  lemma ReadingPair(legal: Legal, p: string, i: nat, n: nat, c: Reading) returns (a: seq<Entry>, b: seq<Entry>)
    requires legal(p) && FirstSegment(p, i, n) && legal(p[..i])
    requires Completes(legal, p, {p}, {p[..i]}, n, AfterHeader(p, i, n), false, c)
    ensures Arranged(a) && Arranged(b) && Within(legal, a, p, false) && Within(legal, b, p, false)
    ensures Frame(a) == Frame(b) && a != b
  {
    var z := p[..i];
    a, b := [Entry(p, c.d)] + c.a, [Entry(z, c.x)] + c.b;
    assert {} + {p} == {p} && {} + {z} == {z};
    Prepend(legal, {}, Entry(p, c.d), c.a, p, false);
    Prepend(legal, {}, Entry(z, c.x), c.b, p, false);
    HeaderSplit(p, i, n);
    FrameBehind(z, c.x, c.b, n);
    NoPrefix(p, z, n, AfterHeader(p, i, n), Tail(c.d, c.a), c.x + Frame(c.b));
    assert a[0].path != b[0].path;
  }

  lemma NoPrefix(p: string, z: string, n: nat, w: string, t: string, f: string)
    requires p + [COLON] == z + [COLON] + Numeral(n) + [COLON] + w && w + t == f
    ensures p + [COLON] + t == (z + [COLON] + Numeral(n) + [COLON]) + f
  {
  }

  // Arranged files are a file set in its sorted order.
  lemma ArrangedIsSorted(es: seq<Entry>)
    requires Arranged(es)
    ensures FileSet(es) && Sort(es) == es
  {
    forall i, j | 0 <= i < |es| && 0 <= j < |es| ensures !Inside(es[i].path, es[j].path) {
      if Inside(es[i].path, es[j].path) {
        InsideIsAbove(es[i].path, es[j].path);
        LeqTotal(es[i].path, es[j].path);
      }
    }
    forall i, j | 0 <= i < j < |es| ensures Leq(es[i].path, es[j].path) { assert After(es[i].path, es[j].path); }
    forall i, j | 0 <= i < j < |es| ensures es[i].path != es[j].path { assert After(es[i].path, es[j].path); }
    SortSorts(es);
    SortedUnique(es, Sort(es));
  }

  lemma SortedCollide(legal: Legal, p: string, a: seq<Entry>, b: seq<Entry>)
    requires Arranged(a) && Arranged(b) && Within(legal, a, p, false) && Within(legal, b, p, false)
    requires Frame(a) == Frame(b) && a != b
    ensures Collide(legal, p, a, b)
  {
    ArrangedIsSorted(a);
    ArrangedIsSorted(b);
    SortSorts(a);
    SortSorts(b);
    if multiset(a) == multiset(b) { SortedUnique(a, b); }
  }

  lemma CollisionSorted(legal: Legal, p: string, a: seq<Entry>, b: seq<Entry>)
    requires Names(legal) && Collide(legal, p, a, b)
    ensures legal(p) && ReadsItself(legal, p)
  {
    SortSorts(a);
    SortSorts(b);
    SortArranges(legal, a, p);
    SortArranges(legal, b, p);
    FirstDifference(legal, p, Sort(a), Sort(b));
  }

  lemma SortArranges(legal: Legal, a: seq<Entry>, p: string)
    requires FileSet(a) && Within(legal, a, p, false)
    ensures Arranged(Sort(a)) && Within(legal, Sort(a), p, false)
  {
    SortSorts(a);
    var s := Sort(a);
    DistinctPathsOfMultiset(a, s);
    assert forall e :: e in s ==> e in multiset(s);
    assert forall e :: e in multiset(a) ==> e in a;
    forall k | 0 <= k < |s| ensures Admitted(legal, p, false, s[k].path) && Bytes(s[k].data) { assert s[k] in a; }
    forall i, j | 0 <= i < j < |s| ensures After(s[i].path, s[j].path) { assert s[i] in a && s[j] in a; }
  }

  // Where two framings of one text part, one side has p and the other the text before its first segment.
  lemma {:induction false} FirstDifference(legal: Legal, p: string, a: seq<Entry>, b: seq<Entry>)
    requires Names(legal) && Arranged(a) && Arranged(b) && Within(legal, a, p, false) && Within(legal, b, p, false)
    requires Frame(a) == Frame(b) && a != b
    ensures legal(p) && ReadsItself(legal, p)
    decreases |a|
  {
    FrameEmpty(a);
    FrameEmpty(b);
    if |b[0].path| < |a[0].path| {
      PartsAtSegment(legal, p, a, b);
    } else if |a[0].path| < |b[0].path| {
      PartsAtSegment(legal, p, b, a);
    } else {
      SameHeadEntry(a, b);
      Follow(legal, {}, a, p, false);
      Follow(legal, {}, b, p, false);
      assert a == [a[0]] + a[1..] && b == [b[0]] + b[1..];
      FirstDifference(legal, p, a[1..], b[1..]);
    }
  }

  lemma PartsAtSegment(legal: Legal, p: string, a: seq<Entry>, b: seq<Entry>)
    requires Names(legal) && a != [] && b != [] && |b[0].path| < |a[0].path| && Frame(a) == Frame(b)
    requires Arranged(a) && Arranged(b) && Within(legal, a, p, false) && Within(legal, b, p, false)
    ensures legal(p) && ReadsItself(legal, p)
  {
    var e, f := a[0], b[0];
    FramesHead(a);
    FramesHead(b);
    SameHeaders(e.path, e.data, a[1..], f.path, f.data, b[1..]);
    assert HasNumeralSegment(e.path) && e.path == p;
    assert FirstSegment(p, |f.path|, |f.data|);
    Follow(legal, {}, a, p, false);
    Follow(legal, {}, b, p, false);
    HeaderSplit(p, |f.path|, |f.data|);
    var w := AfterHeader(p, |f.path|, |f.data|);
    PeelHeader(f.path, |f.data|, w, e.data, a[1..], f.data, b[1..], p);
    CollisionReads(legal, p, {f.path}, w, false, e.data, a[1..], f.data, b[1..]);
    assert ReadsFrom(legal, p, |f.path|, |f.data|);
  }

  lemma SameHeadEntry(a: seq<Entry>, b: seq<Entry>)
    requires a != [] && b != [] && Frame(a) == Frame(b) && |a[0].path| == |b[0].path|
    ensures a[0] == b[0] && Frame(a[1..]) == Frame(b[1..])
  {
    var e, f := a[0], b[0];
    FrameSplits(a);
    FrameSplits(b);
    var x, y := e.data + Frame(a[1..]), f.data + Frame(b[1..]);
    HeadersAgree(e.path, |e.data|, x, f.path, |f.data|, y);
    NumeralsAgree(|e.data|, x, |f.data|, y);
    assert e.data == x[..|e.data|] && f.data == y[..|e.data|];
    assert Frame(a[1..]) == x[|e.data|..] && Frame(b[1..]) == y[|e.data|..];
  }

  // ----- The names the stores hash -----

  // The local store never hashes a file of the metadata's name, nor does verification.
  ghost predicate PayloadPath(q: string) { FilePath(q) && !ArtifactStores.IsMetadata(q) }

  lemma StoresNames()
    ensures Names(FilePath) && Names(PayloadPath)
  {
    forall k: nat | k > 0
      ensures PayloadPath(Top(k)) && PayloadPath([COLON] + Top(k)) && PayloadPath(NumeralTop(k))
    {
      GreatestIsPayload(k);
    }
  }

  lemma GreatestIsPayload(k: nat)
    requires k > 0
    ensures PayloadPath(Top(k)) && PayloadPath([COLON] + Top(k)) && PayloadPath(NumeralTop(k))
  {
    TopSize(k);
    GreatestNames(k);
    AsciiIsUtf8([COLON]);
    AsciiIsUtf8("9:");
    NineUtf8();
    Utf8Concat([COLON], Top(k));
    Utf8Concat(NINE, Top(k));
    Utf8Concat("9:", NINE + Top(k));
    EndsHigh(Top(k));
    EndsHigh([COLON] + Top(k));
    EndsHigh(NumeralTop(k));
  }

  lemma NineUtf8()
    ensures Utf8(NINE) && forall i :: 0 <= i < |NINE| ==> NINE[i] >= '9'
  {
    AsciiIsUtf8("\U{007F}");
    TopSize(1);
    assert Top(1) == LAST + Top(0) == LAST;
    Utf8Concat(LAST, "\U{007F}");
    Utf8Concat(LAST, LAST + "\U{007F}");
  }

  lemma EndsHigh(q: string)
    requires q != "" && Utf8(q) && '/' !in q && q[|q| - 1] > '\U{0080}'
    requires forall i :: 0 <= i < |q| ==> q[i] >= '9'
    ensures PayloadPath(q)
  {
    OneComponent(q);
    var t := "/" + ArtifactStores.METADATA;
    assert t[|t| - 1] == 'n' && ArtifactStores.METADATA[0] == 'm';
    assert forall i :: 0 <= i <= |q| && q[i..] != "" ==> q[i..][|q| - i - 1] == q[|q| - 1];
  }

  // For the names compute_checksum_from_bytes can meet, and for those the local store hashes.
  lemma FilesAmbiguousExactly(p: string)
    ensures Ambiguous(FilePath, p) <==> FilePath(p) && ReadsItself(FilePath, p)
    ensures Ambiguous(PayloadPath, p) <==> PayloadPath(p) && ReadsItself(PayloadPath, p)
  {
    StoresNames();
    AmbiguousExactly(FilePath, p);
    AmbiguousExactly(PayloadPath, p);
  }

  // A path that begins with its numeral segment is harmless: there is no name before it.
  lemma LeadingSegmentHarmless(legal: Legal, p: string, n: nat)
    requires Names(legal) && NumeralAt(p, 0, n)
    ensures HasNumeralSegment(p) && !Ambiguous(legal, p)
  {
    AmbiguousExactly(legal, p);
    forall i: nat, m: nat ensures !ReadsFrom(legal, p, i, m) {
      if FirstSegment(p, i, m) && i > 0 { SegmentStays(p, n, i, m); }
    }
  }

  lemma SegmentStays(p: string, n: nat, i: nat, m: nat)
    requires NumeralAt(p, 0, n) && NumeralAt(p, i, m) && i > 0
    ensures NumeralAt(p[..i], 0, n)
  {
    var j := 1 + |Numeral(n)|;
    assert forall k :: 1 <= k < j ==> p[k] == p[1..j][k - 1] && Digit(Numeral(n)[k - 1]);
    assert i >= j;
    assert p[..i][1..j] == p[1..j];
  }

  // A numeral segment alone does no harm: what follows this one would have to be a path before "z".
  lemma SegmentWithoutHarm()
    ensures HasNumeralSegment("z:0:a") && !Ambiguous(FilePath, "z:0:a")
  {
    var p := "z:0:a";
    assert Numeral(0) == "0";
    assert NumeralAt(p, 1, 0);
    FilesAmbiguousExactly(p);
    NotReadable(p);
    assert AfterHeader(p, 1, 0) == "a:" && p[..1] == "z";
    forall i: nat, n: nat ensures !ReadsFrom(FilePath, p, i, n) {
      if NumeralAt(p, i, n) { OnlySegment(p, i, n); }
    }
  }

  lemma OnlySegment(p: string, i: nat, n: nat)
    requires p == "z:0:a" && NumeralAt(p, i, n)
    ensures i == 1 && n == 0
  {
    SegmentDigit(p, i, n);
    var j := i + 1 + |Numeral(n)|;
    assert p[j - 1] == Numeral(n)[j - 2 - i] by { assert p[i + 1..j][j - 2 - i] == p[j - 1]; }
    assert |Numeral(n)| == 1 && Numeral(n)[0] == '0';
    assert Numeral(n) == Numeral(0) by { assert Numeral(0) == "0"; }
    NumeralInjective(n, 0);
  }

  lemma NotReadable(p: string)
    requires p == "z:0:a"
    ensures !Reads(FilePath, p, {"z"}, 0, "a:", false)
  {
    var y := "a:"[0..1];
    assert y == "a" && !Lt("z", "a");
    forall i: nat, m: nat ensures !FirstSegment(y, i, m) { SegmentDigit(y, i, m); }
    forall k: nat, v: string ensures !Reenters(p, "a:"[0..], k, v) {
      assert (p + [COLON])[0] == 'z' && ("a:"[0..] + Numeral(k) + [COLON] + v)[0] == 'a';
    }
  }

  // It may even take part on both sides, where no shorter path could follow.
  lemma BothSidesHavePath()
    ensures var a := [Entry("3:0:3:0", "0:5"), Entry(":zz", "")];
            var b := [Entry("3", ""), Entry("3:0:3:0", "zz:0:")];
            Collide(FilePath, "3:0:3:0", a, b)
  {
    var p := "3:0:3:0";
    var a := [Entry(p, "0:5"), Entry(":zz", "")];
    var b := [Entry("3", ""), Entry(p, "zz:0:")];
    BothTexts(a, b);
    BothArranged(a, b, p);
    BothSafe();
    SortedCollide(FilePath, p, a, b);
  }

  lemma BothArranged(a: seq<Entry>, b: seq<Entry>, p: string)
    requires p == "3:0:3:0" && |a| == |b| == 2
    requires a[0].path == p && a[1].path == ":zz" && b[0].path == "3" && b[1].path == p
    ensures Arranged(a) && Arranged(b) && FilePath(p) && FilePath(":zz") && FilePath("3")
  {
    LtAt("3", p, 1);
    LtAt(p, ":zz", 0);
    AsciiIsUtf8(p);
    AsciiIsUtf8(":zz");
    AsciiIsUtf8("3");
    OneComponent(p);
    OneComponent(":zz");
    OneComponent("3");
  }

  lemma BothTexts(a: seq<Entry>, b: seq<Entry>)
    requires a == [Entry("3:0:3:0", "0:5"), Entry(":zz", "")]
    requires b == [Entry("3", ""), Entry("3:0:3:0", "zz:0:")]
    ensures Frame(a) == Frame(b)
  {
    assert Numeral(0) == "0" && Numeral(3) == "3" && Numeral(5) == "5";
    FirstText(a);
    SecondText(b);
  }

  lemma FirstText(a: seq<Entry>)
    requires a == [Entry("3:0:3:0", "0:5"), Entry(":zz", "")] && Numeral(0) == "0" && Numeral(3) == "3"
    ensures Frame(a) == "3:0:3:0:3:0:5:zz:0:"
  {
    assert a[1..] == [Entry(":zz", "")];
    FrameOfEmptyFile(":zz");
    assert Frame(a) == Frame1(a[0]) + ":zz:0:";
  }

  lemma SecondText(b: seq<Entry>)
    requires b == [Entry("3", ""), Entry("3:0:3:0", "zz:0:")] && Numeral(0) == "0" && Numeral(5) == "5"
    ensures Frame(b) == "3:0:3:0:3:0:5:zz:0:"
  {
    assert b[1..] == [Entry("3:0:3:0", "zz:0:")] && b[1..][1..] == [];
    assert Frame(b[1..]) == Frame1(b[1]) + "" == "3:0:3:0:5:zz:0:";
    assert Frame(b) == Frame1(b[0]) + "3:0:3:0:5:zz:0:";
  }

  lemma BothSafe()
    ensures !HasNumeralSegment(":zz") && !HasNumeralSegment("3")
  {
    forall i: nat, n: nat ensures !NumeralAt(":zz", i, n) && !NumeralAt("3", i, n) {
      SegmentDigit(":zz", i, n);
      SegmentDigit("3", i, n);
    }
  }
}
