/** Staged file names and the object keys made from them. */
module DatasetKeys {
  import opened Wrappers
  import opened Decimal

  // Both separators count, whatever the host.
  function Unified(s: string): (r: string)
    ensures |r| == |s|
  {
    if s == "" then "" else [if s[0] == '\\' then '/' else s[0]] + Unified(s[1..])
  }

  function LastComponent(s: string): string {
    if s == "" || s[|s| - 1] == '/' then "" else LastComponent(s[..|s| - 1]) + [s[|s| - 1]]
  }

  function StripLeft(s: string, space: char -> bool): string {
    if s != "" && space(s[0]) then StripLeft(s[1..], space) else s
  }

  function StripRight(s: string, space: char -> bool): string {
    if s != "" && space(s[|s| - 1]) then StripRight(s[..|s| - 1], space) else s
  }

  function Strip(s: string, space: char -> bool): string { StripRight(StripLeft(s, space), space) }

  // None stands for UnsafeFilenameError.
  function SanitizeFilename(filename: string, space: char -> bool): Option<string> {
    if '\0' in filename then None
    else
      var candidate := Strip(LastComponent(Unified(filename)), space);
      if candidate in {"", ".", ".."} then None else Some(candidate)
  }

  // One path component that stays inside its directory.
  predicate SafeName(s: string) {
    s !in {"", ".", ".."} && (forall c :: c in s ==> c != '/' && c != '\\' && c != '\0')
  }

  predicate Trimmed(s: string, space: char -> bool) { s != "" ==> !space(s[0]) && !space(s[|s| - 1]) }

  lemma {:induction false} UnifiedChars(s: string)
    ensures forall c :: c in Unified(s) ==> c != '\\' && (c == '/' || c in s)
    ensures '\\' !in s ==> Unified(s) == s
  {
    if s != "" {
      UnifiedChars(s[1..]);
      assert s == [s[0]] + s[1..];
    }
  }

  lemma {:induction false} LastComponentChars(s: string)
    ensures forall c :: c in LastComponent(s) ==> c in s && c != '/'
    ensures '/' !in s ==> LastComponent(s) == s
  {
    if s != "" && s[|s| - 1] != '/' {
      LastComponentChars(s[..|s| - 1]);
      assert s == s[..|s| - 1] + [s[|s| - 1]];
    }
  }

  lemma {:induction false} StripLeftChars(s: string, space: char -> bool)
    ensures forall c :: c in StripLeft(s, space) ==> c in s
    ensures StripLeft(s, space) != "" ==> !space(StripLeft(s, space)[0])
  {
    if s != "" && space(s[0]) { StripLeftChars(s[1..], space); }
  }

  lemma {:induction false} StripRightChars(s: string, space: char -> bool)
    ensures StripRight(s, space) <= s
    ensures forall c :: c in StripRight(s, space) ==> c in s
    ensures StripRight(s, space) != "" ==> !space(StripRight(s, space)[|StripRight(s, space)| - 1])
  {
    if s != "" && space(s[|s| - 1]) { StripRightChars(s[..|s| - 1], space); }
  }

  // What comes out is one safe, trimmed component, and such a name comes out unchanged.
  lemma SanitizedIsSafe(filename: string, space: char -> bool)
    ensures var r := SanitizeFilename(filename, space);
            && (r.Some? ==> SafeName(r.value) && Trimmed(r.value, space))
            && (r == Some(filename) <==> SafeName(filename) && Trimmed(filename, space))
  {
    var unified := Unified(filename);
    var last := LastComponent(unified);
    UnifiedChars(filename);
    LastComponentChars(unified);
    StripLeftChars(last, space);
    StripRightChars(StripLeft(last, space), space);
  }

  // `filename[start..]` is the text after the last separator of either kind.
  predicate AfterSeparators(filename: string, start: nat) {
    && start <= |filename|
    && (start > 0 ==> filename[start - 1] in {'/', '\\'})
    && forall k :: start <= k < |filename| ==> filename[k] !in {'/', '\\'}
  }

  // `filename[i..j]` with nothing but white space between it and both ends of that text.
  predicate SpacesAround(filename: string, start: nat, i: nat, j: nat, space: char -> bool) {
    && start <= i <= j <= |filename|
    && (forall k :: start <= k < i ==> space(filename[k]))
    && (forall k :: j <= k < |filename| ==> space(filename[k]))
  }

  predicate NameWithin(filename: string, name: string, start: nat, i: nat, j: nat, space: char -> bool) {
    AfterSeparators(filename, start) && SpacesAround(filename, start, i, j, space) && name == filename[i..j]
  }

  lemma {:induction false} UnifiedAt(s: string, k: nat)
    requires k < |s|
    ensures Unified(s)[k] == if s[k] == '\\' then '/' else s[k]
  {
    if k > 0 { UnifiedAt(s[1..], k - 1); }
  }

  lemma {:induction false} LastComponentFrom(s: string) returns (start: nat)
    ensures start <= |s| && LastComponent(s) == s[start..]
    ensures (start > 0 ==> s[start - 1] == '/') && forall k :: start <= k < |s| ==> s[k] != '/'
  {
    if s == "" || s[|s| - 1] == '/' {
      start := |s|;
    } else {
      start := LastComponentFrom(s[..|s| - 1]);
      assert s[start..] == s[..|s| - 1][start..] + [s[|s| - 1]];
    }
  }

  lemma {:induction false} StripLeftFrom(s: string, space: char -> bool) returns (i: nat)
    ensures i <= |s| && StripLeft(s, space) == s[i..] && forall k :: 0 <= k < i ==> space(s[k])
  {
    i := 0;
    if s != "" && space(s[0]) {
      var rest := StripLeftFrom(s[1..], space);
      i := rest + 1;
      assert s[i..] == s[1..][rest..];
      assert forall k :: 0 < k < i ==> s[k] == s[1..][k - 1];
    }
  }

  lemma {:induction false} StripRightTo(s: string, space: char -> bool) returns (j: nat)
    ensures j <= |s| && StripRight(s, space) == s[..j] && forall k :: j <= k < |s| ==> space(s[k])
  {
    j := |s|;
    if s != "" && space(s[|s| - 1]) {
      j := StripRightTo(s[..|s| - 1], space);
      assert s[..j] == s[..|s| - 1][..j];
    }
  }

  lemma ComponentFrom(filename: string) returns (start: nat)
    ensures AfterSeparators(filename, start) && LastComponent(Unified(filename)) == filename[start..]
  {
    var unified := Unified(filename);
    forall k | 0 <= k < |filename| ensures unified[k] == if filename[k] == '\\' then '/' else filename[k] {
      UnifiedAt(filename, k);
    }
    start := LastComponentFrom(unified);
    assert unified[start..] == filename[start..];
  }

  lemma StripWithin(s: string, space: char -> bool) returns (i: nat, j: nat)
    ensures SpacesAround(s, 0, i, j, space) && Strip(s, space) == s[i..j]
  {
    i := StripLeftFrom(s, space);
    var rest := StripRightTo(s[i..], space);
    j := i + rest;
    assert s[i..][..rest] == s[i..j];
    assert forall k :: j <= k < |s| ==> s[k] == s[i..][k - i];
  }

  // Where the candidate lies in the file name.
  lemma CandidateWithin(filename: string, space: char -> bool) returns (start: nat, i: nat, j: nat)
    ensures NameWithin(filename, Strip(LastComponent(Unified(filename)), space), start, i, j, space)
  {
    start := ComponentFrom(filename);
    var last := filename[start..];
    var a, b := StripWithin(last, space);
    i, j := start + a, start + b;
    assert last[a..b] == filename[i..j];
    assert forall k :: start <= k < |filename| ==> filename[k] == last[k - start];
  }

  // Nor is there another place for a trimmed name.
  lemma WithinOnce(filename: string, p: string, s: nat, i: nat, j: nat, q: string, t: nat, k: nat, l: nat,
                   space: char -> bool)
    requires NameWithin(filename, p, s, i, j, space) && NameWithin(filename, q, t, k, l, space)
    requires Trimmed(p, space) && Trimmed(q, space)
    ensures p == q
  {
    assert s == t;
    assert p != "" ==> p[0] == filename[i] && p[|p| - 1] == filename[j - 1];
    assert q != "" ==> q[0] == filename[k] && q[|q| - 1] == filename[l - 1];
  }

  // Main result, on positions of the file name: a name comes out exactly when it stands after the last
  // separator with only white space around it, is trimmed, and is no empty or dotted name, and the file
  // name holds no NUL. All other file names are refused.
  lemma SanitizedExactly(filename: string, name: string, space: char -> bool)
    ensures SanitizeFilename(filename, space) == Some(name)
            <==> && '\0' !in filename
                 && name !in {"", ".", ".."}
                 && Trimmed(name, space)
                 && exists start: nat, i: nat, j: nat :: NameWithin(filename, name, start, i, j, space)
  {
    var start, i, j := CandidateWithin(filename, space);
    var last := LastComponent(Unified(filename));
    var candidate := Strip(last, space);
    StripLeftChars(last, space);
    StripRightChars(StripLeft(last, space), space);
    if Trimmed(name, space) {
      forall t: nat, k: nat, l: nat | NameWithin(filename, name, t, k, l, space) ensures name == candidate {
        WithinOnce(filename, candidate, start, i, j, name, t, k, l, space);
      }
    }
  }

  function DatasetVersionKey(dataset: string, version: nat, file: string): string {
    "datasets/" + dataset + "/v" + Numeral(version) + "/" + file
  }

  // Distinct (dataset, version, file) triples get distinct keys, even for dataset ids with slashes.
  lemma KeysDistinct(d: string, u: nat, f: string, e: string, v: nat, g: string)
    requires '/' !in f && '/' !in g
    requires DatasetVersionKey(d, u, f) == DatasetVersionKey(e, v, g)
    ensures d == e && u == v && f == g
  {
    var a, b := "datasets/" + d + "/v" + Numeral(u), "datasets/" + e + "/v" + Numeral(v);
    LastSlashAgrees(a, f, b, g);
    var c, h := "v" + Numeral(u), "v" + Numeral(v);
    assert a == ("datasets/" + d) + "/" + c && b == ("datasets/" + e) + "/" + h;
    assert '/' !in c && '/' !in h by {
      assert forall i :: 0 < i < |c| ==> c[i] == Numeral(u)[i - 1] && Digit(c[i]);
      assert forall i :: 0 < i < |h| ==> h[i] == Numeral(v)[i - 1] && Digit(h[i]);
    }
    LastSlashAgrees("datasets/" + d, c, "datasets/" + e, h);
    assert c[1..] == Numeral(u) && h[1..] == Numeral(v);
    NumeralInjective(u, v);
    assert d == ("datasets/" + d)[9..] && e == ("datasets/" + e)[9..];
  }

  lemma LastSlashAgrees(a: string, f: string, b: string, g: string)
    requires '/' !in f && '/' !in g && a + "/" + f == b + "/" + g
    ensures a == b && f == g
  {
    var s := a + "/" + f;
    assert s[|a|] == '/' && s[|b|] == '/';
    assert forall i :: |a| < i < |s| ==> s[i] == f[i - |a| - 1] && s[i] != '/';
    assert forall i :: |b| < i < |s| ==> s[i] == g[i - |b| - 1] && s[i] != '/';
    assert a == s[..|a|] && b == s[..|b|];
    assert f == s[|a| + 1..] && g == s[|b| + 1..];
  }
}
