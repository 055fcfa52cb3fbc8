/** Sequences of optional values: what occurs in them, what repeats, and counts that ignore order. */
module Occurrences {
  import opened Wrappers

  function Map<T, U>(f: T -> U, s: seq<T>): (r: seq<U>)
    ensures |r| == |s| && forall i :: 0 <= i < |s| ==> r[i] == f(s[i])
  {
    seq(|s|, i requires 0 <= i < |s| => f(s[i]))
  }

  lemma MapAppend<T, U>(f: T -> U, s: seq<T>, k: nat)
    requires k < |s|
    ensures Map(f, s[..k + 1]) == Map(f, s[..k]) + [f(s[k])]
  {
  }

  lemma MapConcat<T, U>(f: T -> U, a: seq<T>, b: seq<T>)
    ensures Map(f, a + b) == Map(f, a) + Map(f, b)
  {
  }

  // The values present among the first n options.
  function Somes<T(==)>(os: seq<Option<T>>, n: nat): set<T>
    requires n <= |os|
  {
    if n == 0 then {} else Somes(os, n - 1) + if os[n - 1].Some? then {os[n - 1].value} else {}
  }

  lemma {:induction false} InSomes<T>(os: seq<Option<T>>, n: nat, x: T)
    requires n <= |os|
    ensures x in Somes(os, n) <==> exists j :: 0 <= j < n && os[j] == Some(x)
  {
    if n > 0 { InSomes(os, n - 1, x); }
  }

  // Value i occurs before position i already.
  predicate Repeats<T(==)>(os: seq<Option<T>>, i: nat) { i < |os| && os[i].Some? && os[i].value in Somes(os, i) }

  predicate Hits<T(==)>(os: seq<Option<T>>, known: set<T>, i: nat) { i < |os| && os[i].Some? && os[i].value in known }

  function RepeatsTo<T(==)>(os: seq<Option<T>>, n: nat): nat
    requires n <= |os|
  {
    if n == 0 then 0 else RepeatsTo(os, n - 1) + if Repeats(os, n - 1) then 1 else 0
  }

  function HitsTo<T(==)>(os: seq<Option<T>>, known: set<T>, n: nat): nat
    requires n <= |os|
  {
    if n == 0 then 0 else HitsTo(os, known, n - 1) + if Hits(os, known, n - 1) then 1 else 0
  }

  lemma {:induction false} NoRepeats<T>(os: seq<Option<T>>, n: nat)
    requires n <= |os|
    ensures RepeatsTo(os, n) == 0 <==> forall i :: 0 <= i < n ==> !Repeats(os, i)
  {
    if n > 0 { NoRepeats(os, n - 1); }
  }

  lemma {:induction false} NoHits<T>(os: seq<Option<T>>, known: set<T>, n: nat)
    requires n <= |os|
    ensures HitsTo(os, known, n) == 0 <==> forall i :: 0 <= i < n ==> !Hits(os, known, i)
  {
    if n > 0 { NoHits(os, known, n - 1); }
  }

  function Trues(bs: seq<bool>, n: nat): nat
    requires n <= |bs|
  {
    if n == 0 then 0 else Trues(bs, n - 1) + if bs[n - 1] then 1 else 0
  }

  ghost function TrueAt(bs: seq<bool>, n: nat): set<nat> { set i: nat | i < n && i < |bs| && bs[i] }

  lemma {:induction false} TruesCounted(bs: seq<bool>, n: nat)
    requires n <= |bs|
    ensures Trues(bs, n) == |TrueAt(bs, n)|
  {
    if n == 0 {
      assert TrueAt(bs, 0) == {};
    } else {
      TruesCounted(bs, n - 1);
      assert TrueAt(bs, n) == TrueAt(bs, n - 1) + if bs[n - 1] then {n - 1} else {};
    }
  }

  lemma {:induction false} RepeatsCounted<T>(os: seq<Option<T>>, bs: seq<bool>, n: nat)
    requires n <= |os| == |bs| && forall i: nat :: i < |os| ==> (bs[i] <==> Repeats(os, i))
    ensures RepeatsTo(os, n) == Trues(bs, n)
  {
    if n > 0 { RepeatsCounted(os, bs, n - 1); }
  }

  lemma {:induction false} HitsCounted<T>(os: seq<Option<T>>, known: set<T>, bs: seq<bool>, n: nat)
    requires n <= |os| == |bs| && forall i: nat :: i < |os| ==> (bs[i] <==> Hits(os, known, i))
    ensures HitsTo(os, known, n) == Trues(bs, n)
  {
    if n > 0 { HitsCounted(os, known, bs, n - 1); }
  }

  // ----- The defined values, in order -----

  function Defined<U>(os: seq<Option<U>>): seq<U> {
    if os == [] then []
    else Defined(os[..|os| - 1]) + if os[|os| - 1].Some? then [os[|os| - 1].value] else []
  }

  function Collect<T, U>(f: T -> Option<U>, s: seq<T>): seq<U> { Defined(Map(f, s)) }

  ghost function Distinct<T>(ps: seq<T>): set<T> { set p | p in ps }

  function CountIn<T(==)>(s: seq<T>, known: set<T>): nat {
    if s == [] then 0 else CountIn(s[..|s| - 1], known) + if s[|s| - 1] in known then 1 else 0
  }

  lemma {:induction false} SomesPrefix<T>(os: seq<Option<T>>, m: nat, n: nat)
    requires n <= m <= |os|
    ensures Somes(os[..m], n) == Somes(os, n)
  {
    if n > 0 { SomesPrefix(os, m, n - 1); }
  }

  lemma {:induction false} RepeatsPrefix<T>(os: seq<Option<T>>, m: nat, n: nat)
    requires n <= m <= |os|
    ensures RepeatsTo(os[..m], n) == RepeatsTo(os, n)
  {
    if n > 0 {
      RepeatsPrefix(os, m, n - 1);
      SomesPrefix(os, m, n - 1);
    }
  }

  lemma {:induction false} HitsPrefix<T>(os: seq<Option<T>>, known: set<T>, m: nat, n: nat)
    requires n <= m <= |os|
    ensures HitsTo(os[..m], known, n) == HitsTo(os, known, n)
  {
    if n > 0 { HitsPrefix(os, known, m, n - 1); }
  }

  lemma {:induction false} InDefined<T>(os: seq<Option<T>>)
    ensures Distinct(Defined(os)) == Somes(os, |os|)
  {
    if os != [] {
      var n := |os| - 1;
      InDefined(os[..n]);
      SomesPrefix(os, n, n);
      if os[n].Some? { DistinctAppend(Defined(os[..n]), os[n].value); }
    }
  }

  lemma DistinctAppend<T>(d: seq<T>, x: T)
    ensures Distinct(d + [x]) == Distinct(d) + {x}
  {
  }

  lemma {:induction false} RepeatsAreSurplus<T>(os: seq<Option<T>>)
    ensures RepeatsTo(os, |os|) == |Defined(os)| - |Distinct(Defined(os))|
  {
    if os != [] {
      var n := |os| - 1;
      RepeatsAreSurplus(os[..n]);
      RepeatsPrefix(os, n, n);
      InDefined(os[..n]);
      SomesPrefix(os, n, n);
      var d := Defined(os[..n]);
      assert RepeatsTo(os, |os|) == |d| - |Distinct(d)| + if Repeats(os, n) then 1 else 0;
      if os[n].Some? {
        DistinctAppend(d, os[n].value);
        assert Defined(os) == d + [os[n].value];
        assert Repeats(os, n) <==> os[n].value in Distinct(d);
        assert os[n].value in Distinct(d) ==> Distinct(d) + {os[n].value} == Distinct(d);
      } else {
        assert Defined(os) == d;
      }
    }
  }

  lemma {:induction false} HitsAreCounted<T>(os: seq<Option<T>>, known: set<T>)
    ensures HitsTo(os, known, |os|) == CountIn(Defined(os), known)
  {
    if os != [] {
      var n := |os| - 1;
      HitsAreCounted(os[..n], known);
      HitsPrefix(os, known, n, n);
      var d := Defined(os[..n]);
      if os[n].Some? {
        assert (d + [os[n].value])[..|d|] == d;
      } else {
        assert Defined(os) == d;
      }
    }
  }

  // ----- Reordering -----

  // Where the last element of `a` sits in a permutation of `a`.
  lemma TakeOut<T>(a: seq<T>, b: seq<T>) returns (i: nat)
    requires a != [] && multiset(a) == multiset(b)
    ensures i < |b| && b == b[..i] + [a[|a| - 1]] + b[i + 1..]
    ensures multiset(b[..i] + b[i + 1..]) == multiset(a[..|a| - 1])
  {
    var x := a[|a| - 1];
    assert x in multiset(b);
    i :| 0 <= i < |b| && b[i] == x;
    assert b == b[..i] + [x] + b[i + 1..];
    assert a == a[..|a| - 1] + [x];
    var rest := b[..i] + b[i + 1..];
    assert multiset(rest) + multiset{x} == multiset(b) == multiset(a[..|a| - 1]) + multiset{x};
    assert multiset(rest) == multiset(rest) + multiset{x} - multiset{x};
    assert multiset(a[..|a| - 1]) == multiset(a[..|a| - 1]) + multiset{x} - multiset{x};
  }

  lemma {:induction false} DefinedConcat<U>(a: seq<Option<U>>, b: seq<Option<U>>)
    ensures Defined(a + b) == Defined(a) + Defined(b)
    decreases |b|
  {
    if b == [] {
      assert a + b == a;
    } else {
      assert (a + b)[..|a + b| - 1] == a + b[..|b| - 1];
      DefinedConcat(a, b[..|b| - 1]);
    }
  }

  lemma CollectRegroup<T, U>(f: T -> Option<U>, l: seq<T>, x: seq<T>, r: seq<T>)
    ensures multiset(Collect(f, l + x + r)) == multiset(Collect(f, l + r)) + multiset(Collect(f, x))
  {
    MapConcat(f, l + x, r);
    MapConcat(f, l, x);
    MapConcat(f, l, r);
    DefinedConcat(Map(f, l + x), Map(f, r));
    DefinedConcat(Map(f, l), Map(f, x));
    DefinedConcat(Map(f, l), Map(f, r));
  }

  lemma {:induction false} CollectPermute<T, U>(f: T -> Option<U>, a: seq<T>, b: seq<T>)
    requires multiset(a) == multiset(b)
    ensures multiset(Collect(f, a)) == multiset(Collect(f, b))
    decreases |a|
  {
    if a == [] {
      assert |multiset(b)| == 0;
    } else {
      var i := TakeOut(a, b);
      var front, x := a[..|a| - 1], [a[|a| - 1]];
      CollectPermute(f, front, b[..i] + b[i + 1..]);
      CollectRegroup(f, b[..i], x, b[i + 1..]);
      CollectRegroup(f, front, x, []);
      assert front + x + [] == a && front + [] == front;
    }
  }

  lemma {:induction false} CountConcat<T>(a: seq<T>, b: seq<T>, known: set<T>)
    ensures CountIn(a + b, known) == CountIn(a, known) + CountIn(b, known)
    decreases |b|
  {
    if b == [] {
      assert a + b == a;
    } else {
      assert (a + b)[..|a + b| - 1] == a + b[..|b| - 1];
      CountConcat(a, b[..|b| - 1], known);
    }
  }

  lemma {:induction false} CountPermute<T>(a: seq<T>, b: seq<T>, known: set<T>)
    requires multiset(a) == multiset(b)
    ensures CountIn(a, known) == CountIn(b, known)
    decreases |a|
  {
    SameMultiset(a, b);
    if a != [] {
      var i := TakeOut(a, b);
      var front, x := a[..|a| - 1], [a[|a| - 1]];
      CountPermute(front, b[..i] + b[i + 1..], known);
      CountConcat(b[..i] + x, b[i + 1..], known);
      CountConcat(b[..i], x, known);
      CountConcat(b[..i], b[i + 1..], known);
      CountConcat(front, x, known);
      assert front + x == a;
    }
  }

  lemma SameMultiset<T>(a: seq<T>, b: seq<T>)
    requires multiset(a) == multiset(b)
    ensures |a| == |b| && forall x :: x in a <==> x in b
  {
    assert |multiset(a)| == |a| && |multiset(b)| == |b|;
    assert forall x :: (x in a <==> x in multiset(a)) && (x in b <==> x in multiset(b));
  }
}

/** Dataset validation: duplicate detection (H7), leakage detection (H8), counts and the gate.

    A parsed record is kept as far as these rules look at it: its messages, each with a role and a
    content that may or may not be text, and `other` for the remaining fields. The per-record rules
    (H0-H6, H9) are the parameter `rules`. */
module Validation {
  import opened Wrappers
  import opened Occurrences

  datatype Content = Text(text: string) | NotText

  datatype Message = Message(role: string, content: Content) | NotAnObject

  datatype Messages = Items(items: seq<Message>) | NotAList

  datatype Rec = Obj(messages: Messages, other: string) | NotARecord

  type Pair = (string, string)

  // ----- Normalization -----

  // The characters str.strip removes.
  predicate PySpace(c: char) {
    '\U{0009}' <= c <= '\U{000D}' || '\U{001C}' <= c <= '\U{0020}' || '\U{2000}' <= c <= '\U{200A}'
    || c in {'\U{0085}', '\U{00A0}', '\U{1680}', '\U{2028}', '\U{2029}', '\U{202F}', '\U{205F}', '\U{3000}'}
  }

  function Strip(s: string): string
    decreases |s|
  {
    if s == "" then ""
    else if PySpace(s[0]) then Strip(s[1..])
    else if PySpace(s[|s| - 1]) then Strip(s[..|s| - 1])
    else s
  }

  predicate Blank(s: string) { forall k :: 0 <= k < |s| ==> PySpace(s[k]) }

  // s[i..j] is what lies between the outer white space of s.
  predicate Between(s: string, i: nat, j: nat) {
    && i <= j <= |s|
    && (forall k :: 0 <= k < i ==> PySpace(s[k])) && (forall k :: j <= k < |s| ==> PySpace(s[k]))
    && (i < j ==> !PySpace(s[i]) && !PySpace(s[j - 1]))
  }

  lemma {:induction false} StripSlice(s: string) returns (i: nat, j: nat)
    ensures Between(s, i, j) && Strip(s) == s[i..j]
    decreases |s|
  {
    if s == "" {
      i, j := 0, 0;
    } else if PySpace(s[0]) {
      i, j := StripSlice(s[1..]);
      BehindSpace(s, i, j);
      i, j := i + 1, j + 1;
    } else if PySpace(s[|s| - 1]) {
      i, j := StripSlice(s[..|s| - 1]);
      assert s[i..j] == s[..|s| - 1][i..j];
    } else {
      i, j := 0, |s|;
    }
  }

  lemma BehindSpace(s: string, i: nat, j: nat)
    requires s != "" && PySpace(s[0]) && Between(s[1..], i, j)
    ensures Between(s, i + 1, j + 1) && s[i + 1..j + 1] == s[1..][i..j]
  {
    assert forall k :: 0 < k < |s| ==> s[k] == s[1..][k - 1];
  }

  // Outer white space goes, all of it and nothing else: what is left is the one slice between it.
  lemma StripExactly(s: string, i: nat, j: nat)
    requires Between(s, i, j)
    ensures Strip(s) == s[i..j]
  {
    var a, b := StripSlice(s);
  }

  lemma StripAround(x: string, s: string, y: string)
    requires Blank(x) && Blank(y)
    ensures Strip(x + s + y) == Strip(s)
  {
    var i, j := StripSlice(s);
    var t := x + s + y;
    if i == j {
      StripExactly(t, 0, 0);
    } else {
      StripExactly(t, |x| + i, |x| + j);
      assert t[|x| + i..|x| + j] == s[i..j];
    }
  }

  predicate Spaces(s: string) { forall k :: 0 <= k < |s| ==> s[k] in {' ', '\t', '\n', '\r'} }

  // The message objects of a record, anything else skipped.
  function Objects(r: Rec): seq<Message> {
    if r.Obj? && r.messages.Items? then OnlyObjects(r.messages.items) else []
  }

  function OnlyObjects(ms: seq<Message>): (os: seq<Message>)
    ensures forall k :: 0 <= k < |os| ==> os[k].Message?
  {
    if ms == [] then [] else OnlyObjects(ms[..|ms| - 1]) + (if ms[|ms| - 1].Message? then [ms[|ms| - 1]] else [])
  }

  lemma {:induction false} ObjectsSkip(a: seq<Message>, b: seq<Message>)
    ensures OnlyObjects(a + [NotAnObject] + b) == OnlyObjects(a + b)
    decreases |b|
  {
    var s, t := a + [NotAnObject] + b, a + b;
    if b == [] {
      assert s[..|s| - 1] == a == t;
    } else {
      assert s[..|s| - 1] == a + [NotAnObject] + b[..|b| - 1] && t[..|t| - 1] == a + b[..|b| - 1];
      ObjectsSkip(a, b[..|b| - 1]);
    }
  }

  // Messages that are no objects play no part, and the others stay as they are.
  lemma {:induction false} ObjectsStay(ms: seq<Message>)
    requires forall k :: 0 <= k < |ms| ==> ms[k].Message?
    ensures OnlyObjects(ms) == ms
  {
    if ms != [] { ObjectsStay(ms[..|ms| - 1]); }
  }

  predicate Says(m: Message, role: string) { m.Message? && m.role == role && m.content.Text? }

  // The first message of the role with text content.
  function FirstText(ms: seq<Message>, role: string): Option<string> {
    if ms == [] then None
    else if Says(ms[0], role) then Some(Strip(ms[0].content.text))
    else FirstText(ms[1..], role)
  }

  lemma {:induction false} FirstTextAt(ms: seq<Message>, role: string, t: string)
    ensures FirstText(ms, role) == Some(t) <==> exists k: nat :: FirstAt(ms, role, t, k)
  {
    if ms != [] {
      var rest := ms[1..];
      FirstTextAt(rest, role, t);
      if Says(ms[0], role) {
        assert FirstAt(ms, role, t, 0) <==> t == Strip(ms[0].content.text);
      } else {
        if k: nat :| FirstAt(ms, role, t, k) { assert FirstAt(rest, role, t, k - 1); }
        if k: nat :| FirstAt(rest, role, t, k) { assert FirstAt(ms, role, t, k + 1); }
      }
    }
  }

  // The text of the first message with this role and a text, between its outer white space.
  lemma FirstTextExactly(ms: seq<Message>, role: string, t: string)
    ensures FirstText(ms, role) == Some(t) <==>
            exists k :: 0 <= k < |ms| && ms[k].Message? && ms[k].role == role && ms[k].content.Text?
                        && t == Strip(ms[k].content.text)
                        && forall j :: 0 <= j < k ==> !(ms[j].Message? && ms[j].role == role && ms[j].content.Text?)
  {
    FirstTextAt(ms, role, t);
    if k: nat :| FirstAt(ms, role, t, k) { assert ms[k].Message?; }
    if k :| 0 <= k < |ms| && ms[k].Message? && ms[k].role == role && ms[k].content.Text?
            && t == Strip(ms[k].content.text)
            && forall j :: 0 <= j < k ==> !(ms[j].Message? && ms[j].role == role && ms[j].content.Text?) {
      assert FirstAt(ms, role, t, k);
    }
  }

  predicate FirstAt(ms: seq<Message>, role: string, t: string, k: nat) {
    k < |ms| && Says(ms[k], role) && t == Strip(ms[k].content.text) && forall j :: 0 <= j < k ==> !Says(ms[j], role)
  }

  predicate AllText(ms: seq<Message>) { forall k :: 0 <= k < |ms| ==> ms[k].Message? && ms[k].content.Text? }

  // Defined only when every message is text and both roles speak.
  function NormalizedPair(r: Rec): Option<Pair> {
    var ms := Objects(r);
    var u, a := FirstText(ms, "user"), FirstText(ms, "assistant");
    if AllText(ms) && u.Some? && a.Some? then Some((u.value, a.value)) else None
  }

  function UserContent(r: Rec): Option<string> { FirstText(Objects(r), "user") }

  lemma {:induction false} FirstTextGrows(ms: seq<Message>, m: Message, role: string)
    ensures FirstText(ms + [m], role)
            == (if FirstText(ms, role).Some? then FirstText(ms, role)
                else if Says(m, role) then Some(Strip(m.content.text)) else None)
  {
    if ms == [] {
      assert ([] + [m])[1..] == [];
    } else {
      assert (ms + [m])[1..] == ms[1..] + [m];
      FirstTextGrows(ms[1..], m, role);
    }
  }

  method NormalizedPairOf(r: Rec) returns (pair: Option<Pair>)
    ensures pair == NormalizedPair(r)
  {
    var user, assistant := None, None;
    var ms := Objects(r);
    var k := 0;
    while k < |ms|
      invariant 0 <= k <= |ms|
      invariant AllText(ms[..k])
      invariant user == FirstText(ms[..k], "user") && assistant == FirstText(ms[..k], "assistant")
    {
      var m := ms[k];
      assert ms[..k + 1] == ms[..k] + [m];
      if m.content.NotText? {
        assert !AllText(ms);
        return None;
      }
      FirstTextGrows(ms[..k], m, "user");
      FirstTextGrows(ms[..k], m, "assistant");
      if m.role == "user" && user == None {
        user := Some(Strip(m.content.text));
      } else if m.role == "assistant" && assistant == None {
        assistant := Some(Strip(m.content.text));
      }
      k := k + 1;
    }
    assert ms[..k] == ms;
    pair := if user == None || assistant == None then None else Some((user.value, assistant.value));
  }

  method UserContentOf(r: Rec) returns (content: Option<string>)
    ensures content == UserContent(r)
  {
    var ms := Objects(r);
    var k := 0;
    while k < |ms|
      invariant 0 <= k <= |ms|
      invariant FirstText(ms[..k], "user") == None
    {
      assert ms[..k + 1] == ms[..k] + [ms[k]];
      FirstTextGrows(ms[..k], ms[k], "user");
      if Says(ms[k], "user") {
        FirstTextPrefix(ms, k + 1, "user");
        return Some(Strip(ms[k].content.text));
      }
      k := k + 1;
    }
    assert ms[..k] == ms;
    content := None;
  }

  lemma {:induction false} FirstTextPrefix(ms: seq<Message>, k: nat, role: string)
    requires k <= |ms| && FirstText(ms[..k], role).Some?
    ensures FirstText(ms, role) == FirstText(ms[..k], role)
  {
    if !Says(ms[0], role) {
      assert ms[..k][1..] == ms[1..][..k - 1];
      FirstTextPrefix(ms[1..], k - 1, role);
    }
  }

  // ----- H7 and H8 -----

  function PairsOf(rs: seq<Rec>): seq<Option<Pair>> { Map(NormalizedPair, rs) }

  function UsersOf(rs: seq<Rec>): seq<Option<string>> { Map(UserContent, rs) }

  // Record i repeats the normalized pair of an earlier record.
  predicate Duplicate(rs: seq<Rec>, i: nat) { Repeats(PairsOf(rs), i) }

  lemma DuplicateMeans(rs: seq<Rec>, i: nat)
    requires i < |rs|
    ensures Duplicate(rs, i) <==>
            NormalizedPair(rs[i]).Some? && exists j :: 0 <= j < i && NormalizedPair(rs[j]) == NormalizedPair(rs[i])
  {
    var os := PairsOf(rs);
    if os[i].Some? {
      InSomes(os, i, os[i].value);
      if j :| 0 <= j < i && NormalizedPair(rs[j]) == NormalizedPair(rs[i]) { assert os[j] == os[i]; }
    }
  }

  // The user contents of an eval set.
  function EvalContents(es: seq<Rec>): set<string> { Somes(UsersOf(es), |es|) }

  lemma InContents(es: seq<Rec>, c: string)
    ensures c in EvalContents(es) <==> exists j :: 0 <= j < |es| && UserContent(es[j]) == Some(c)
  {
    InSomes(UsersOf(es), |es|, c);
    if j :| 0 <= j < |es| && UserContent(es[j]) == Some(c) { assert UsersOf(es)[j] == Some(c); }
  }

  ghost predicate Leaks(r: Rec, contents: set<string>) {
    UserContent(r).Some? && UserContent(r).value in contents
  }

  // The code of a per-record rule, or one of the two dataset-level codes.
  datatype Code = Rule(name: string) | H7 | H8

  function Added(errors: seq<Code>, found: bool, code: Code): seq<Code> { if found then errors + [code] else errors }

  // The error list of record i.
  ghost function ErrorsAt(rs: seq<Rec>, contents: set<string>, rules: Rec -> seq<Code>, i: nat): seq<Code>
    requires i < |rs|
  {
    Added(Added(rules(rs[i]), Duplicate(rs, i), H7), Leaks(rs[i], contents), H8)
  }

  // How many of the first n records carry no error.
  function CleanTo(errors: seq<seq<Code>>, n: nat): nat
    requires n <= |errors|
  {
    if n == 0 then 0 else CleanTo(errors, n - 1) + if errors[n - 1] == [] then 1 else 0
  }

  ghost function Duplicates(rs: seq<Rec>): nat { RepeatsTo(PairsOf(rs), |rs|) }

  ghost function Leakage(rs: seq<Rec>, contents: set<string>): nat { HitsTo(UsersOf(rs), contents, |rs|) }

  function Clean(errors: seq<seq<Code>>): nat { CleanTo(errors, |errors|) }

  datatype Gate = PASS | NEEDS_REVIEW | FAIL

  datatype Report = Report(errors: seq<seq<Code>>, duplicates: nat, leakage: nat, valid: nat, invalid: nat, gate: Gate)

  function GateOf(leakage: nat, invalid: nat, total: nat, failRatio: real): Gate {
    if leakage > 0 then FAIL
    else if invalid > 0 && total > 0 && invalid as real / total as real >= failRatio then FAIL
    else if invalid > 0 then NEEDS_REVIEW
    else PASS
  }

  ghost predicate IsReport(rep: Report, rs: seq<Rec>, es: seq<Rec>, rules: Rec -> seq<Code>, failRatio: real) {
    && |rep.errors| == |rs|
    && (forall i :: 0 <= i < |rs| ==> rep.errors[i] == ErrorsAt(rs, EvalContents(es), rules, i))
    && rep.duplicates == Duplicates(rs)
    && rep.leakage == Leakage(rs, EvalContents(es))
    && rep.valid == Clean(rep.errors)
    && rep.valid + rep.invalid == |rs|
    && rep.gate == GateOf(rep.leakage, rep.invalid, |rs|, failRatio)
  }

  method HardErrors(rs: seq<Rec>, rules: Rec -> seq<Code>) returns (errors: seq<seq<Code>>)
    ensures |errors| == |rs| && forall i :: 0 <= i < |rs| ==> errors[i] == rules(rs[i])
  {
    errors := [];
    for k := 0 to |rs|
      invariant |errors| == k && forall i :: 0 <= i < k ==> errors[i] == rules(rs[i])
    {
      errors := errors + [rules(rs[k])];
    }
  }

  method PairsFrom(rs: seq<Rec>) returns (pairs: seq<Option<Pair>>)
    ensures pairs == PairsOf(rs)
  {
    pairs := [];
    for k := 0 to |rs|
      invariant pairs == Map(NormalizedPair, rs[..k])
    {
      var pair := NormalizedPairOf(rs[k]);
      pairs := pairs + [pair];
      MapAppend(NormalizedPair, rs, k);
    }
    assert rs[..|rs|] == rs;
  }

  method UsersFrom(rs: seq<Rec>) returns (users: seq<Option<string>>)
    ensures users == UsersOf(rs)
  {
    users := [];
    for k := 0 to |rs|
      invariant users == Map(UserContent, rs[..k])
    {
      var user := UserContentOf(rs[k]);
      users := users + [user];
      MapAppend(UserContent, rs, k);
    }
    assert rs[..|rs|] == rs;
  }

  // H7: every value seen before marks its record.
  method MarkRepeats<T(==)>(os: seq<Option<T>>, before: seq<seq<Code>>) returns (errors: seq<seq<Code>>, count: nat)
    requires |before| == |os|
    ensures |errors| == |os| && forall i :: 0 <= i < |os| ==> errors[i] == Added(before[i], Repeats(os, i), H7)
    ensures count == RepeatsTo(os, |os|)
  {
    errors, count := before, 0;
    var seen: set<T> := {};
    for k := 0 to |os|
      invariant |errors| == |os|
      invariant forall i :: 0 <= i < k ==> errors[i] == Added(before[i], Repeats(os, i), H7)
      invariant forall i :: k <= i < |os| ==> errors[i] == before[i]
      invariant seen == Somes(os, k)
      invariant count == RepeatsTo(os, k)
    {
      if os[k].Some? {
        if os[k].value in seen {
          errors := errors[k := errors[k] + [H7]];
          count := count + 1;
        } else {
          seen := seen + {os[k].value};
        }
      }
    }
  }

  // H8: every known value marks its record.
  method MarkHits<T(==)>(os: seq<Option<T>>, known: set<T>, before: seq<seq<Code>>)
      returns (errors: seq<seq<Code>>, count: nat)
    requires |before| == |os|
    ensures |errors| == |os| && forall i :: 0 <= i < |os| ==> errors[i] == Added(before[i], Hits(os, known, i), H8)
    ensures count == HitsTo(os, known, |os|)
  {
    errors, count := before, 0;
    for k := 0 to |os|
      invariant |errors| == |os|
      invariant forall i :: 0 <= i < k ==> errors[i] == Added(before[i], Hits(os, known, i), H8)
      invariant forall i :: k <= i < |os| ==> errors[i] == before[i]
      invariant count == HitsTo(os, known, k)
    {
      if os[k].Some? && os[k].value in known {
        errors := errors[k := errors[k] + [H8]];
        count := count + 1;
      }
    }
  }

  method SomesFrom<T(==)>(os: seq<Option<T>>) returns (values: set<T>)
    ensures values == Somes(os, |os|)
  {
    values := {};
    for k := 0 to |os|
      invariant values == Somes(os, k)
    {
      if os[k].Some? { values := values + {os[k].value}; }
    }
  }

  method ContentsOf(es: seq<Rec>) returns (contents: set<string>)
    ensures contents == EvalContents(es)
  {
    var users := UsersFrom(es);
    contents := SomesFrom(users);
  }

  method MarkDuplicates(rs: seq<Rec>, before: seq<seq<Code>>) returns (errors: seq<seq<Code>>, count: nat)
    requires |before| == |rs|
    ensures |errors| == |rs|
    ensures forall i :: 0 <= i < |rs| ==> errors[i] == Added(before[i], Duplicate(rs, i), H7)
    ensures count == Duplicates(rs)
  {
    var pairs := PairsFrom(rs);
    errors, count := MarkRepeats(pairs, before);
  }

  method MarkLeakage(rs: seq<Rec>, contents: set<string>, before: seq<seq<Code>>)
      returns (errors: seq<seq<Code>>, count: nat)
    requires |before| == |rs|
    ensures |errors| == |rs|
    ensures forall i :: 0 <= i < |rs| ==> errors[i] == Added(before[i], Leaks(rs[i], contents), H8)
    ensures count == Leakage(rs, contents)
  {
    var users := UsersFrom(rs);
    errors, count := MarkHits(users, contents, before);
    assert forall i :: 0 <= i < |rs| ==> (Hits(users, contents, i) <==> Leaks(rs[i], contents));
  }

  method CountClean(errors: seq<seq<Code>>) returns (n: nat)
    ensures n == Clean(errors) && n <= |errors|
  {
    n := 0;
    for k := 0 to |errors|
      invariant n == CleanTo(errors, k) && n <= k
    {
      if errors[k] == [] { n := n + 1; }
    }
  }

  method ValidateDatasetVersion(rs: seq<Rec>, es: seq<Rec>, rules: Rec -> seq<Code>, failRatio: real)
      returns (rep: Report)
    ensures IsReport(rep, rs, es, rules, failRatio)
  {
    var hard := HardErrors(rs, rules);
    var marked, duplicates := MarkDuplicates(rs, hard);
    var contents := ContentsOf(es);
    var errors, leakage := MarkLeakage(rs, contents, marked);
    var valid := CountClean(errors);
    var invalid := |rs| - valid;
    rep := Report(errors, duplicates, leakage, valid, invalid, GateOf(leakage, invalid, |rs|, failRatio));
  }

  // ----- What the report means -----

  // The per-record rules never use the two dataset-level codes.
  ghost predicate PlainRules(rules: Rec -> seq<Code>) { forall r :: H7 !in rules(r) && H8 !in rules(r) }

  lemma CodesExactly(rep: Report, rs: seq<Rec>, es: seq<Rec>, rules: Rec -> seq<Code>, failRatio: real, i: nat)
    requires IsReport(rep, rs, es, rules, failRatio) && PlainRules(rules) && i < |rs|
    ensures H7 in rep.errors[i] <==>
            NormalizedPair(rs[i]).Some? && exists j :: 0 <= j < i && NormalizedPair(rs[j]) == NormalizedPair(rs[i])
    ensures H8 in rep.errors[i] <==>
            exists k :: 0 <= k < |es| && UserContent(rs[i]).Some? && UserContent(es[k]) == UserContent(rs[i])
    ensures rep.errors[i] == rules(rs[i]) + (if H7 in rep.errors[i] then [H7] else [])
                             + (if H8 in rep.errors[i] then [H8] else [])
  {
    if UserContent(rs[i]).Some? { InContents(es, UserContent(rs[i]).value); }
    assert rep.errors[i] == ErrorsAt(rs, EvalContents(es), rules, i);
    assert H7 !in rules(rs[i]) && H8 !in rules(rs[i]);
    DuplicateMeans(rs, i);
  }

  // The pair is there when every message object is text and both roles speak.
  lemma PairExactly(r: Rec, u: string, a: string)
    ensures NormalizedPair(r) == Some((u, a)) <==>
            && (forall k :: 0 <= k < |Objects(r)| ==> Objects(r)[k].Message? && Objects(r)[k].content.Text?)
            && FirstText(Objects(r), "user") == Some(u) && FirstText(Objects(r), "assistant") == Some(a)
    ensures UserContent(r) == FirstText(Objects(r), "user")
    ensures r.Obj? && r.messages.Items? ==> Objects(r) == OnlyObjects(r.messages.items)
    ensures !(r.Obj? && r.messages.Items?) ==> Objects(r) == []
  {
  }

  // One question and its answer.
  function Dialogue(u: string, a: string, other: string): Rec {
    Obj(Items([Message("user", Text(u)), Message("assistant", Text(a))]), other)
  }

  lemma DialogueSays(u: string, a: string, other: string)
    ensures NormalizedPair(Dialogue(u, a, other)) == Some((Strip(u), Strip(a)))
    ensures UserContent(Dialogue(u, a, other)) == Some(Strip(u))
  {
    var ms := [Message("user", Text(u)), Message("assistant", Text(a))];
    ObjectsStay(ms);
    assert "user"[0] != "assistant"[0];
    assert ms[1..] == [Message("assistant", Text(a))];
    assert FirstText(ms[1..], "assistant") == Some(Strip(a));
  }

  // What this means for texts: spaces, tabs and line ends around them neither hide a repeated dialogue nor
  // a question known from the eval set.
  lemma SpacesHideNothing(rep: Report, rs: seq<Rec>, es: seq<Rec>, rules: Rec -> seq<Code>, failRatio: real,
                          i: nat, j: nat, k: nat, u: string, a: string, o: string,
                          x: string, y: string, v: string, w: string, o': string, a'': string, o'': string)
    requires IsReport(rep, rs, es, rules, failRatio) && PlainRules(rules) && j < i < |rs| && k < |es|
    requires Spaces(x) && Spaces(y) && Spaces(v) && Spaces(w)
    requires rs[i] == Dialogue(x + u + y, v + a + w, o')
    ensures rs[j] == Dialogue(u, a, o) ==> H7 in rep.errors[i]
    ensures es[k] == Dialogue(u, a'', o'') ==> H8 in rep.errors[i] && rep.gate == FAIL
  {
    StripAround(x, u, y);
    StripAround(v, a, w);
    DialogueSays(u, a, o);
    DialogueSays(u, a'', o'');
    DialogueSays(x + u + y, v + a + w, o');
    CodesExactly(rep, rs, es, rules, failRatio, i);
    if es[k] == Dialogue(u, a'', o'') {
      InContents(es, Strip(u));
      assert Leaks(rs[i], EvalContents(es));
      GateMeaning(rep, rs, es, rules, failRatio);
    }
  }

  // And only repeated texts repeat: of two dialogues the later is a duplicate exactly when the texts agree
  // between their outer white space.
  lemma DialogueRepeatsExactly(rep: Report, es: seq<Rec>, rules: Rec -> seq<Code>, failRatio: real,
                               u: string, a: string, o: string, u': string, a': string, o': string)
    requires IsReport(rep, [Dialogue(u, a, o), Dialogue(u', a', o')], es, rules, failRatio) && PlainRules(rules)
    ensures H7 in rep.errors[1] <==> Strip(u) == Strip(u') && Strip(a) == Strip(a')
    ensures H7 !in rep.errors[0]
  {
    var rs := [Dialogue(u, a, o), Dialogue(u', a', o')];
    DialogueSays(u, a, o);
    DialogueSays(u', a', o');
    CodesExactly(rep, rs, es, rules, failRatio, 0);
    CodesExactly(rep, rs, es, rules, failRatio, 1);
  }

  lemma {:induction false} CleanCounted(errors: seq<seq<Code>>, bs: seq<bool>, n: nat)
    requires n <= |errors| == |bs| && forall i :: 0 <= i < |errors| ==> (bs[i] <==> errors[i] == [])
    ensures CleanTo(errors, n) == Trues(bs, n)
  {
    if n > 0 { CleanCounted(errors, bs, n - 1); }
  }

  // The records whose error list the predicate picks.
  ghost function Picked(rep: Report, p: seq<Code> -> bool): set<nat> {
    set i: nat | i < |rep.errors| && p(rep.errors[i])
  }

  function Bits(rep: Report, p: seq<Code> -> bool): (bs: seq<bool>)
    ensures |bs| == |rep.errors| && forall i :: 0 <= i < |bs| ==> bs[i] == p(rep.errors[i])
  {
    Map(p, rep.errors)
  }

  lemma PickedCounted(rep: Report, p: seq<Code> -> bool)
    ensures |Picked(rep, p)| == Trues(Bits(rep, p), |rep.errors|)
  {
    TruesCounted(Bits(rep, p), |rep.errors|);
    assert Picked(rep, p) == TrueAt(Bits(rep, p), |rep.errors|);
  }

  // The counts are numbers of records.
  lemma CountsAreRecords(rep: Report, rs: seq<Rec>, es: seq<Rec>, rules: Rec -> seq<Code>, failRatio: real)
    requires IsReport(rep, rs, es, rules, failRatio) && PlainRules(rules)
    ensures rep.duplicates == |Picked(rep, e => H7 in e)| && rep.leakage == |Picked(rep, e => H8 in e)|
    ensures rep.valid == |Picked(rep, e => e == [])| && rep.invalid == |rs| - rep.valid
  {
    var repeated, leaked, clean := (e: seq<Code>) => H7 in e, (e: seq<Code>) => H8 in e, (e: seq<Code>) => e == [];
    CodesMatch(rep, rs, es, rules, failRatio);
    RepeatsCounted(PairsOf(rs), Bits(rep, repeated), |rs|);
    HitsCounted(UsersOf(rs), EvalContents(es), Bits(rep, leaked), |rs|);
    CleanCounted(rep.errors, Bits(rep, clean), |rs|);
    PickedCounted(rep, repeated);
    PickedCounted(rep, leaked);
    PickedCounted(rep, clean);
    assert Picked(rep, repeated) == Picked(rep, e => H7 in e);
    assert Picked(rep, leaked) == Picked(rep, e => H8 in e);
    assert Picked(rep, clean) == Picked(rep, e => e == []);
  }

  lemma CodesMatch(rep: Report, rs: seq<Rec>, es: seq<Rec>, rules: Rec -> seq<Code>, failRatio: real)
    requires IsReport(rep, rs, es, rules, failRatio) && PlainRules(rules)
    ensures forall i: nat :: i < |rs| ==> (H7 in rep.errors[i] <==> Repeats(PairsOf(rs), i))
    ensures forall i: nat :: i < |rs| ==> (H8 in rep.errors[i] <==> Hits(UsersOf(rs), EvalContents(es), i))
  {
    forall i: nat | i < |rs|
      ensures H7 in rep.errors[i] <==> Repeats(PairsOf(rs), i)
      ensures H8 in rep.errors[i] <==> Hits(UsersOf(rs), EvalContents(es), i)
    {
      assert rep.errors[i] == ErrorsAt(rs, EvalContents(es), rules, i);
      assert H7 !in rules(rs[i]) && H8 !in rules(rs[i]);
    }
  }

  lemma NoLeakage(rs: seq<Rec>, contents: set<string>)
    ensures Leakage(rs, contents) == 0 <==> forall i :: 0 <= i < |rs| ==> !Leaks(rs[i], contents)
  {
    NoHits(UsersOf(rs), contents, |rs|);
    assert forall i :: 0 <= i < |rs| ==> (Hits(UsersOf(rs), contents, i) <==> Leaks(rs[i], contents));
  }

  lemma {:induction false} AllClean(errors: seq<seq<Code>>, n: nat)
    requires n <= |errors|
    ensures CleanTo(errors, n) <= n
    ensures CleanTo(errors, n) == n <==> forall i :: 0 <= i < n ==> errors[i] == []
  {
    if n > 0 { AllClean(errors, n - 1); }
  }

  // The gate passes exactly when no record carries any error, whatever the threshold; and a leaked
  // record always fails it.
  lemma GateMeaning(rep: Report, rs: seq<Rec>, es: seq<Rec>, rules: Rec -> seq<Code>, failRatio: real)
    requires IsReport(rep, rs, es, rules, failRatio)
    ensures rep.gate == PASS <==> forall i :: 0 <= i < |rs| ==> rep.errors[i] == []
    ensures (exists i :: 0 <= i < |rs| && Leaks(rs[i], EvalContents(es))) ==> rep.gate == FAIL
    ensures rep.gate == PASS <==> && (forall i :: 0 <= i < |rs| ==> rules(rs[i]) == [])
                                  && rep.duplicates == 0 && rep.leakage == 0
  {
    var contents := EvalContents(es);
    AllClean(rep.errors, |rs|);
    NoLeakage(rs, contents);
    NoRepeats(PairsOf(rs), |rs|);
    forall i | 0 <= i < |rs|
      ensures rep.errors[i] == [] <==> rules(rs[i]) == [] && !Duplicate(rs, i) && !Leaks(rs[i], contents)
    {
      assert rep.errors[i] == ErrorsAt(rs, contents, rules, i);
    }
  }

  // ----- Duplicates, counted without looking at positions -----

  // The defined pairs, in order.
  function Pairs(rs: seq<Rec>): seq<Pair> { Collect(NormalizedPair, rs) }

  // duplicate_count is the number of defined pairs minus the number of distinct ones.
  lemma DuplicatesAreSurplus(rs: seq<Rec>)
    ensures Duplicates(rs) == |Pairs(rs)| - |Distinct(Pairs(rs))|
  {
    RepeatsAreSurplus(PairsOf(rs));
  }

  lemma LeakagePermute(a: seq<Rec>, b: seq<Rec>, contents: set<string>)
    requires multiset(a) == multiset(b)
    ensures Leakage(a, contents) == Leakage(b, contents)
  {
    HitsAreCounted(UsersOf(a), contents);
    HitsAreCounted(UsersOf(b), contents);
    CollectPermute(UserContent, a, b);
    CountPermute(Collect(UserContent, a), Collect(UserContent, b), contents);
  }

  lemma DuplicatesPermute(a: seq<Rec>, b: seq<Rec>)
    requires multiset(a) == multiset(b)
    ensures Duplicates(a) == Duplicates(b)
  {
    DuplicatesAreSurplus(a);
    DuplicatesAreSurplus(b);
    CollectPermute(NormalizedPair, a, b);
    SameMultiset(Pairs(a), Pairs(b));
    assert Distinct(Pairs(a)) == Distinct(Pairs(b));
  }

  ghost predicate NoOwnErrors(rs: seq<Rec>, rules: Rec -> seq<Code>) {
    forall i :: 0 <= i < |rs| ==> rules(rs[i]) == []
  }

  lemma NoErrorsWithin(a: seq<Rec>, b: seq<Rec>, rules: Rec -> seq<Code>)
    requires NoOwnErrors(a, rules) && forall r :: r in b ==> r in a
    ensures NoOwnErrors(b, rules)
  {
    forall i | 0 <= i < |b| ensures rules(b[i]) == [] { assert b[i] in a; }
  }

  lemma NoErrorsPermute(a: seq<Rec>, b: seq<Rec>, rules: Rec -> seq<Code>)
    requires multiset(a) == multiset(b)
    ensures NoOwnErrors(a, rules) <==> NoOwnErrors(b, rules)
  {
    SameMultiset(a, b);
    if NoOwnErrors(a, rules) { NoErrorsWithin(a, b, rules); }
    if NoOwnErrors(b, rules) { NoErrorsWithin(b, a, rules); }
  }

  lemma PassMeans(rep: Report, rs: seq<Rec>, es: seq<Rec>, rules: Rec -> seq<Code>, failRatio: real)
    requires IsReport(rep, rs, es, rules, failRatio)
    ensures rep.duplicates == Duplicates(rs) && rep.leakage == Leakage(rs, EvalContents(es))
    ensures rep.gate == PASS <==> NoOwnErrors(rs, rules) && rep.duplicates == 0 && rep.leakage == 0
  {
    GateMeaning(rep, rs, es, rules, failRatio);
  }

  // Reordering the records changes neither count, nor whether the gate passes.
  lemma CountsIgnoreOrder(a: seq<Rec>, b: seq<Rec>, es: seq<Rec>, rules: Rec -> seq<Code>, failRatio: real,
                          ra: Report, rb: Report)
    requires multiset(a) == multiset(b)
    requires IsReport(ra, a, es, rules, failRatio) && IsReport(rb, b, es, rules, failRatio)
    ensures ra.duplicates == rb.duplicates && ra.leakage == rb.leakage
    ensures ra.gate == PASS <==> rb.gate == PASS
  {
    PassMeans(ra, a, es, rules, failRatio);
    PassMeans(rb, b, es, rules, failRatio);
    DuplicatesPermute(a, b);
    LeakagePermute(a, b, EvalContents(es));
    NoErrorsPermute(a, b, rules);
  }
}
