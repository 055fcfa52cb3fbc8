/** Relative file names as byte strings: UTF-8, compared byte by byte, and the greatest of them. */
module FileNames {
  import opened ArtifactChecksum

  predicate Bytes(s: string) { forall k :: 0 <= k < |s| ==> s[k] < '\U{0100}' }

  // ----- Order -----

  predicate Lt(a: string, b: string) { a != b && Leq(a, b) }

  lemma LtTransitive(a: string, b: string, c: string)
    requires Lt(a, b) && Lt(b, c)
    ensures Lt(a, c)
  {
    LeqTransitive(a, b, c);
    if a == c { LeqTotal(a, b); }
  }

  // The first difference decides.
  lemma {:induction false} LtAt(a: string, b: string, m: nat)
    requires m <= |a| && m < |b| && a[..m] == b[..m] && (m == |a| || a[m] < b[m])
    ensures Lt(a, b)
  {
    if m > 0 {
      assert a[0] == a[..m][0] == b[..m][0] == b[0];
      assert a[1..][..m - 1] == a[..m][1..] && b[1..][..m - 1] == b[..m][1..];
      LtAt(a[1..], b[1..], m - 1);
    }
  }

  lemma {:induction false} LtBehind(x: string, a: string, b: string)
    requires Lt(a, b)
    ensures Lt(x + a, x + b)
    decreases |x|
  {
    if x == "" {
      assert x + a == a && x + b == b;
    } else {
      assert (x + a)[1..] == x[1..] + a && (x + b)[1..] == x[1..] + b;
      LtBehind(x[1..], a, b);
    }
  }

  lemma {:induction false} LtExtends(a: string, b: string, x: string, y: string)
    requires |a| == |b| && Lt(a, b)
    ensures Lt(a + x, b + y)
    decreases |a|
  {
    assert (a + x)[1..] == a[1..] + x && (b + y)[1..] == b[1..] + y;
    assert (a + x)[0] == a[0] && (b + y)[0] == b[0];
    if a[0] == b[0] {
      assert a == [a[0]] + a[1..] && b == [b[0]] + b[1..];
      LtExtends(a[1..], b[1..], x, y);
    }
  }

  lemma {:induction false} LtLonger(a: string, b: string, c: string)
    requires Lt(a, b)
    ensures Lt(a, b + c)
    decreases |a|
  {
    if a != "" {
      assert (b + c)[1..] == b[1..] + c;
      if a[0] == b[0] {
        assert a == [a[0]] + a[1..] && b == [b[0]] + b[1..];
        LtLonger(a[1..], b[1..], c);
      }
    }
  }

  // ----- UTF-8: table 3-7 of the Unicode Standard -----

  predicate Continuation(c: char) { '\U{0080}' <= c <= '\U{00BF}' }

  // How many bytes a character takes that starts with this one, 0 if none does.
  function Width(c: char): nat {
    if c < '\U{0080}' then 1
    else if '\U{00C2}' <= c <= '\U{00DF}' then 2
    else if '\U{00E0}' <= c <= '\U{00EF}' then 3
    else if '\U{00F0}' <= c <= '\U{00F4}' then 4
    else 0
  }

  predicate Second(c: char, d: char) {
    && (if c == '\U{00E0}' then '\U{00A0}' else if c == '\U{00F0}' then '\U{0090}' else '\U{0080}') <= d
    && d <= (if c == '\U{00ED}' then '\U{009F}' else if c == '\U{00F4}' then '\U{008F}' else '\U{00BF}')
  }

  predicate StartsCharacter(s: string) {
    && s != "" && 0 < Width(s[0]) <= |s|
    && (Width(s[0]) > 1 ==> Second(s[0], s[1]))
    && (Width(s[0]) > 2 ==> Continuation(s[2]))
    && (Width(s[0]) > 3 ==> Continuation(s[3]))
  }

  predicate Utf8(s: string)
    decreases |s|
  {
    s == "" || (StartsCharacter(s) && Utf8(s[Width(s[0])..]))
  }

  lemma {:induction false} Utf8Bytes(s: string)
    requires Utf8(s)
    ensures Bytes(s)
    decreases |s|
  {
    if s != "" {
      var k := Width(s[0]);
      Utf8Bytes(s[k..]);
      assert forall j :: k <= j < |s| ==> s[j] == s[k..][j - k];
    }
  }

  lemma {:induction false} AsciiIsUtf8(s: string)
    requires forall k :: 0 <= k < |s| ==> s[k] < '\U{0080}'
    ensures Utf8(s)
  {
    if s != "" { AsciiIsUtf8(s[1..]); }
  }

  lemma {:induction false} Utf8Concat(a: string, b: string)
    requires Utf8(a) && Utf8(b)
    ensures Utf8(a + b)
    decreases |a|
  {
    if a == "" {
      assert a + b == b;
    } else {
      var k := Width(a[0]);
      assert (a + b)[k..] == a[k..] + b;
      Utf8Concat(a[k..], b);
    }
  }

  // A text may be cut where a character starts.
  lemma {:induction false} Utf8Cut(a: string, b: string)
    requires Utf8(a + b) && (b != "" ==> !Continuation(b[0]))
    ensures Utf8(a) && Utf8(b)
    decreases |a|
  {
    var s := a + b;
    if a == "" {
      assert s == b;
    } else {
      var k := Width(s[0]);
      assert forall i :: 1 <= i < k ==> Continuation(s[i]);
      assert b != "" ==> s[|a|] == b[0];
      assert s[k..] == a[k..] + b;
      Utf8Cut(a[k..], b);
    }
  }

  // ----- The greatest names -----

  const LAST := "\U{00F4}\U{008F}\U{00BF}\U{00BF}"

  // The last character k times: above everything shorter.
  function Top(k: nat): string { if k == 0 then "" else LAST + Top(k - 1) }

  lemma {:induction false} TopSize(k: nat)
    ensures |Top(k)| == 4 * k && Utf8(Top(k)) && forall i :: 0 <= i < |Top(k)| ==> Top(k)[i] > '\U{0080}'
  {
    if k > 0 {
      TopSize(k - 1);
      assert Top(k)[4..] == Top(k - 1);
    }
  }

  lemma {:induction false} TopConcat(j: nat, k: nat)
    ensures Top(j + k) == Top(j) + Top(k)
    decreases j
  {
    if j == 0 {
      assert Top(0) + Top(k) == Top(k);
    } else {
      TopConcat(j - 1, k);
      assert LAST + (Top(j - 1) + Top(k)) == LAST + Top(j - 1) + Top(k);
    }
  }

  // Where a text that starts with another character falls below.
  lemma BelowLast(s: string) returns (m: nat)
    requires Utf8(s) && s != "" && !(|s| >= 4 && s[..4] == LAST)
    ensures m < 4 && m < |s| && s[..m] == LAST[..m] && s[m] < LAST[m]
  {
    if s[0] < LAST[0] {
      m := 0;
    } else if s[1] < LAST[1] {
      m := 1;
    } else if s[2] < LAST[2] {
      m := 2;
    } else {
      m := 3;
      assert s[..4] == [s[0], s[1], s[2], s[3]];
    }
  }

  lemma OtherCharacter(s: string, t: string)
    requires Utf8(s) && !(|s| >= 4 && s[..4] == LAST)
    ensures Lt(s, LAST + t)
  {
    if s != "" {
      var m := BelowLast(s);
      assert (LAST + t)[..m] == LAST[..m];
      LtAt(s, LAST + t, m);
    }
  }

  lemma {:induction false} TopAbove(s: string, k: nat)
    requires Utf8(s) && k > |s|
    ensures Lt(s, Top(k))
    decreases k
  {
    if |s| >= 4 && s[..4] == LAST {
      assert s == LAST + s[4..];
      TopAbove(s[4..], k - 1);
      LtBehind(LAST, s[4..], Top(k - 1));
    } else {
      OtherCharacter(s, Top(k - 1));
    }
  }

  // The greatest name of nine bytes.
  const NINE := LAST + (LAST + "\U{007F}")

  lemma Utf8Rest(s: string)
    requires Utf8(s) && |s| >= 4 && s[..4] == LAST
    ensures Utf8(s[4..]) && s == LAST + s[4..]
  {
    assert s[0] == s[..4][0];
  }

  // Nothing that has whole characters in its first nine bytes comes after it and the greatest rest.
  lemma NineAbove(s: string, k: nat)
    requires Utf8(s) && k > |s| && (|s| >= 9 ==> Utf8(s[..9]))
    ensures Lt(s, NINE + Top(k))
  {
    var rest := LAST + ("\U{007F}" + Top(k));
    assert NINE + Top(k) == LAST + rest;
    if |s| >= 4 && s[..4] == LAST {
      Utf8Rest(s);
      if |s| >= 9 {
        assert s[..9][..4] == LAST && s[..9][4..] == s[4..][..5];
        Utf8Rest(s[..9]);
      }
      FiveAbove(s[4..], k);
      LtBehind(LAST, s[4..], rest);
    } else {
      OtherCharacter(s, rest);
    }
  }

  lemma FiveAbove(s: string, k: nat)
    requires Utf8(s) && k > |s| && (|s| >= 5 ==> Utf8(s[..5]))
    ensures Lt(s, LAST + ("\U{007F}" + Top(k)))
  {
    if |s| >= 4 && s[..4] == LAST {
      Utf8Rest(s);
      if |s| >= 5 {
        assert s[..5][..4] == LAST && s[..5][4..] == s[4..][..1];
        Utf8Rest(s[..5]);
      }
      OneAbove(s[4..], k);
      LtBehind(LAST, s[4..], "\U{007F}" + Top(k));
    } else {
      OtherCharacter(s, "\U{007F}" + Top(k));
    }
  }

  lemma OneAbove(s: string, k: nat)
    requires Utf8(s) && k > |s| && (|s| >= 1 ==> Utf8(s[..1]))
    ensures Lt(s, "\U{007F}" + Top(k))
  {
    if s != "" {
      assert Width(s[..1][0]) == 1;
      assert ("\U{007F}" + Top(k))[1..] == Top(k) && s == [s[0]] + s[1..];
      TopAbove(s[1..], k);
    }
  }

  // ----- Relative paths -----

  predicate IsComponent(q: string, i: int, j: int) {
    && 0 <= i <= j <= |q| && '/' !in q[i..j]
    && (i == 0 || q[i - 1] == '/') && (j == |q| || q[j] == '/')
  }

  // What `relative_to(...).as_posix()` yields for a file and encodes without error.
  ghost predicate FilePath(q: string) {
    && q != "" && Utf8(q) && '\U{0000}' !in q
    && forall i, j :: IsComponent(q, i, j) ==> q[i..j] !in {"", ".", ".."}
  }

  // A file of this path would lie in a directory of the other's name.
  predicate Inside(q: string, dir: string) { |dir| < |q| && q[..|dir|] == dir && q[|dir|] == '/' }

  lemma InsideIsAbove(q: string, dir: string)
    requires Inside(q, dir)
    ensures Lt(dir, q)
  {
    LtAt(dir, q, |dir|);
  }

  lemma OneComponent(q: string)
    requires q != "" && Utf8(q) && '\U{0000}' !in q && '/' !in q && q[|q| - 1] != '.'
    ensures FilePath(q)
  {
    assert forall i :: 0 <= i < |q| ==> q[i] in q;
    assert q[0..|q|] == q;
  }
}
