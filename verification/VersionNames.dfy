/** The names derived from a model version: the artifact directory and the adapter name. */
module VersionNames {
  import opened Decimal

  predicate Kept(c: char) { 'A' <= c <= 'Z' || 'a' <= c <= 'z' || '0' <= c <= '9' || c == '.' }

  // Every maximal run of other characters becomes one dash.
  function Dashed(s: string): string {
    if s == "" then ""
    else if Kept(s[0]) then [s[0]] + Dashed(s[1..])
    else
      var rest := Dashed(s[1..]);
      if rest != "" && rest[0] == '-' then rest else ['-'] + rest
  }

  function Stripped(s: string): string { StripRight(if s != "" && s[0] == '-' then s[1..] else s) }

  function StripRight(s: string): string { if s != "" && s[|s| - 1] == '-' then s[..|s| - 1] else s }

  // `_slug`. Dashes are never doubled after the first substitution, so one is all there is to strip.
  function Slug(s: string): string {
    var stripped := Stripped(Dashed(s));
    if stripped == "" then "model" else stripped
  }

  predicate SingleDashes(s: string) {
    && (forall i :: 0 <= i < |s| ==> Kept(s[i]) || s[i] == '-')
    && (forall i :: 0 <= i < |s| - 1 ==> s[i] != '-' || s[i + 1] != '-')
  }

  predicate IsSlug(s: string) { s != "" && SingleDashes(s) && s[0] != '-' && s[|s| - 1] != '-' }

  lemma {:induction false} DashedShape(s: string)
    ensures SingleDashes(Dashed(s))
  {
    if s != "" { DashedShape(s[1..]); }
  }

  lemma {:induction false} DashedFixes(s: string)
    requires SingleDashes(s)
    ensures Dashed(s) == s
  {
    if s != "" {
      assert s == [s[0]] + s[1..];
      assert forall i :: 0 <= i < |s| - 1 ==> s[1..][i] == s[i + 1];
      DashedFixes(s[1..]);
    }
  }

  lemma StrippedShape(s: string)
    requires SingleDashes(s)
    ensures var d := Stripped(s); SingleDashes(d) && (d != "" ==> Kept(d[0]) && d[|d| - 1] != '-')
  {
    var t := if s != "" && s[0] == '-' then s[1..] else s;
    assert SingleDashes(t) && (t != "" ==> t[0] != '-');
    if t != "" && t[|t| - 1] == '-' {
      assert SingleDashes(t[..|t| - 1]);
    }
  }

  // A slug is never empty, safe as a path segment, free of doubled and of outer dashes.
  lemma SlugShape(s: string)
    ensures IsSlug(Slug(s))
    ensures '/' !in Slug(s)
  {
    DashedShape(s);
    StrippedShape(Dashed(s));
  }

  // The strings that are already slugs are exactly those the function leaves alone.
  lemma SlugFixesExactly(s: string)
    ensures Slug(s) == s <==> IsSlug(s)
    ensures Slug(Slug(s)) == Slug(s)
  {
    SlugShape(s);
    if IsSlug(s) { DashedFixes(s); }
    DashedFixes(Slug(s));
  }

  // Words with one more character before them, which joins the first one or stands apart.
  function Grow(c: char, joins: bool, ws: seq<string>): seq<string> {
    if !Kept(c) then ws else if joins && ws != [] then [[c] + ws[0]] + ws[1..] else [[c]] + ws
  }

  // The maximal runs of kept characters, left to right.
  function Words(s: string): (ws: seq<string>)
    ensures s != "" && Kept(s[0]) ==> ws != []
  {
    if s == "" then [] else Grow(s[0], |s| > 1 && Kept(s[1]), Words(s[1..]))
  }

  // Three facts that leave no choice: a text of kept characters is one word, another character parts
  // two texts' words, and nothing has none.
  lemma {:induction false} OneWord(s: string)
    requires s != "" && forall i :: 0 <= i < |s| ==> Kept(s[i])
    ensures Words(s) == [s]
  {
    if |s| == 1 {
      assert s == [s[0]] && Words(s[1..]) == [];
    } else {
      OneWord(s[1..]);
      assert s == [s[0]] + s[1..];
    }
  }

  lemma {:induction false} WordsParted(a: string, c: char, b: string)
    requires !Kept(c)
    ensures Words(a + [c] + b) == Words(a) + Words(b)
  {
    var s := a + [c] + b;
    if a == "" {
      assert s[1..] == b && Words(a) + Words(b) == Words(b);
    } else {
      assert s[1..] == a[1..] + [c] + b;
      WordsParted(a[1..], c, b);
      var joins := |a| > 1 && Kept(a[1]);
      assert s[0] == a[0] && (|s| > 1 && Kept(s[1])) == joins;
      GrowApart(a[0], joins, Words(a[1..]), Words(b));
    }
  }

  lemma GrowApart(c: char, joins: bool, ws: seq<string>, tail: seq<string>)
    requires joins ==> ws != []
    ensures Grow(c, joins, ws + tail) == Grow(c, joins, ws) + tail
  {
    if joins { assert (ws + tail)[1..] == ws[1..] + tail; }
  }

  // Words joined by single dashes.
  function Join(ws: seq<string>): string {
    if ws == [] then "" else if |ws| == 1 then ws[0] else ws[0] + "-" + Join(ws[1..])
  }

  lemma {:induction false} DashedWords(s: string)
    ensures Words(Dashed(s)) == Words(s)
  {
    if s != "" {
      DashedWords(s[1..]);
      var rest := Dashed(s[1..]);
      assert ([s[0]] + rest)[1..] == rest && (['-'] + rest)[1..] == rest;
    }
  }

  lemma StrippedWords(s: string)
    ensures Words(Stripped(s)) == Words(s)
  {
    var t := if s != "" && s[0] == '-' then s[1..] else s;
    if t != "" && t[|t| - 1] == '-' {
      WordsParted(t[..|t| - 1], '-', "");
      assert t == t[..|t| - 1] + ['-'] + "";
    }
  }

  lemma {:induction false} JoinWords(s: string)
    requires SingleDashes(s) && (s != "" ==> s[|s| - 1] != '-')
    ensures Join(Words(s)) == if s != "" && s[0] == '-' then s[1..] else s
  {
    if s != "" {
      var t := s[1..];
      assert s == [s[0]] + t;
      TailDashes(s);
      JoinWords(t);
      if Kept(s[0]) {
        JoinGrow(s[0], t != "" && Kept(t[0]), Words(t));
      }
    }
  }

  lemma TailDashes(s: string)
    requires s != "" && SingleDashes(s)
    ensures SingleDashes(s[1..])
  {
    assert forall i :: 0 <= i < |s| - 1 ==> s[1..][i] == s[i + 1];
  }

  lemma JoinGrow(c: char, joins: bool, ws: seq<string>)
    requires Kept(c) && (joins ==> ws != [])
    ensures Join(Grow(c, joins, ws)) == [c] + (if joins || ws == [] then "" else "-") + Join(ws)
  {
    var grown := Grow(c, joins, ws);
    if joins {
      assert grown[1..] == ws[1..];
    } else {
      assert grown[1..] == ws;
    }
  }

  // Main result: the slug is the text's own words joined by dashes, whatever stood around them; "model"
  // stands for a text without words.
  lemma SlugJoinsWords(s: string)
    ensures Slug(s) == if Words(s) == [] then "model" else Join(Words(s))
    ensures Words(Slug(s)) == if Words(s) == [] then ["model"] else Words(s)
  {
    var d := Stripped(Dashed(s));
    DashedShape(s);
    DashedWords(s);
    StrippedWords(Dashed(s));
    StrippedShape(Dashed(s));
    JoinWords(d);
    OneWord("model");
  }

  // Two texts have the same slug exactly when they have the same words, "model" standing for none.
  lemma SameSlugExactly(a: string, b: string)
    ensures Slug(a) == Slug(b)
            <==> (if Words(a) == [] then ["model"] else Words(a)) == (if Words(b) == [] then ["model"] else Words(b))
  {
    SlugJoinsWords(a);
    SlugJoinsWords(b);
  }

  function LoraName(model: string, version: nat): string { model + "-v" + Numeral(version) }

  function BuildVersionName(model: string, base: string, version: nat): string {
    model + "-" + Slug(base) + "-v" + Numeral(version)
  }

  // Below the base directory of the store.
  function ArtifactPath(model: string, base: string, version: nat): string {
    model + "/" + BuildVersionName(model, base, version)
  }

  // What is before the last dash, and the number after the `-v`.
  function LastDash(s: string): (k: int)
    ensures -1 <= k < |s| && (k >= 0 ==> s[k] == '-')
  {
    if s == "" then -1 else if s[|s| - 1] == '-' then |s| - 1 else LastDash(s[..|s| - 1])
  }

  lemma {:induction false} LastDashIs(s: string, k: nat)
    requires k < |s| && s[k] == '-' && '-' !in s[k + 1..]
    ensures LastDash(s) == k
  {
    if k < |s| - 1 {
      assert s[|s| - 1] == s[k + 1..][|s| - 2 - k];
      var t := s[..|s| - 1];
      assert t[k + 1..] == s[k + 1..][..|s| - 2 - k];
      LastDashIs(t, k);
    }
  }

  // The decimal after the last dash recovers the version, whatever the prefix contains.
  lemma SuffixRecovers(prefix: string, version: nat)
    ensures var name := prefix + "-v" + Numeral(version);
            var k := LastDash(name);
            && k == |prefix| && AllDigits(name[k + 2..]) && Value(name[k + 2..]) == version
  {
    var digits := Numeral(version);
    var name := prefix + "-v" + digits;
    assert name[|prefix|] == '-' && name[|prefix| + 1..] == "v" + digits && name[|prefix| + 2..] == digits;
    forall i | 0 <= i < |"v" + digits| ensures ("v" + digits)[i] != '-' {
      assert i > 0 ==> Digit(digits[i - 1]);
    }
    LastDashIs(name, |prefix|);
    ValueOfNumeral(version);
  }

  lemma SuffixesAgree(p: string, u: nat, q: string, v: nat)
    requires p + "-v" + Numeral(u) == q + "-v" + Numeral(v)
    ensures p == q && u == v
  {
    SuffixRecovers(p, u);
    SuffixRecovers(q, v);
    var name := p + "-v" + Numeral(u);
    assert p == name[..|p|] && q == name[..|q|];
  }

  // Distinct (model, version) pairs get distinct adapter names, for any model ids at all.
  lemma LoraNamesDistinct(m: string, u: nat, n: string, v: nat)
    requires LoraName(m, u) == LoraName(n, v)
    ensures m == n && u == v
  {
    SuffixesAgree(m, u, n, v);
  }

  // They get distinct artifact directories too, whatever the base models are. Model ids are validated
  // to contain no slash.
  lemma ArtifactPathsDistinct(m: string, a: string, u: nat, n: string, b: string, v: nat)
    requires '/' !in m && '/' !in n
    requires ArtifactPath(m, a, u) == ArtifactPath(n, b, v)
    ensures m == n && u == v && Slug(a) == Slug(b)
  {
    var path := ArtifactPath(m, a, u);
    assert path[|m|] == '/' && path[|n|] == '/';
    assert forall k :: 0 <= k < |m| ==> path[k] == m[k] != '/';
    assert forall k :: 0 <= k < |n| ==> path[k] == n[k] != '/';
    assert m == path[..|m|] && n == path[..|n|];
    assert BuildVersionName(m, a, u) == path[|m| + 1..] == BuildVersionName(n, b, v);
    assert BuildVersionName(m, a, u) == (m + "-" + Slug(a)) + "-v" + Numeral(u);
    assert BuildVersionName(n, b, v) == (n + "-" + Slug(b)) + "-v" + Numeral(v);
    SuffixesAgree(m + "-" + Slug(a), u, n + "-" + Slug(b), v);
    assert Slug(a) == (m + "-" + Slug(a))[|m| + 1..] && Slug(b) == (n + "-" + Slug(b))[|n| + 1..];
  }

  // The stored name alone does not tell two versions apart; the directory of the model does.
  lemma NameAloneIsAmbiguous(a: string, b: string, c: string, v: nat)
    requires IsSlug(b) && IsSlug(c)
    ensures BuildVersionName(a + "-" + b, c, v) == BuildVersionName(a, b + "-" + c, v)
  {
    assert b != "" && c != "";
    SlugFixesExactly(c);
    JoinedSlug(b, c);
    SlugFixesExactly(b + "-" + c);
  }

  lemma JoinedSlug(b: string, c: string)
    requires IsSlug(b) && IsSlug(c)
    ensures IsSlug(b + "-" + c)
  {
    var s := b + "-" + c;
    forall i | 0 <= i < |s| ensures Kept(s[i]) || s[i] == '-' {
      if i > |b| { assert s[i] == c[i - |b| - 1]; }
    }
    forall i | 0 <= i < |s| - 1 ensures s[i] != '-' || s[i + 1] != '-' {
      if i > |b| {
        assert s[i] == c[i - |b| - 1] && s[i + 1] == c[i - |b|];
      } else if i == |b| {
        assert s[i + 1] == c[0];
      }
    }
  }
}
