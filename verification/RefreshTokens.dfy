/** Refresh-token rotation with reuse detection (section 4.14.2 of RFC 9700).

    `AuthService` is the service as one request sees it. `RefreshProtocol` runs any number of
    requests at once: a request first reads the revocation table and decides what to do, and only
    its commit, checked by the table's unique key, takes effect. Signature and expiry checks, user
    lookup and the random token ids are inputs. */
module RefreshTokens {
  import opened Wrappers

  // What decoding a presented token yields: nothing (bad signature, expired), or its claims.
  datatype Decoded = Invalid | Payload(typ: string, jti: Option<string>, sub: Option<int>, familyId: Option<string>)

  const PREFIX := "family-revoked:"

  // The synthetic key that marks a whole family as revoked.
  function Marker(family: string): string { PREFIX + family }

  // A uuid4().hex: it holds no ':', so it is never a marker.
  predicate IsTokenId(jti: string) { jti != "" && ':' !in jti }

  lemma MarkerDistinct(family: string, other: string, jti: string)
    requires IsTokenId(jti)
    ensures Marker(family) != jti
    ensures Marker(family) == Marker(other) ==> family == other
  {
    assert Marker(family)[14] == ':';
    assert Marker(family)[|PREFIX|..] == family && Marker(other)[|PREFIX|..] == other;
  }

  datatype Verdict = Deny | Kill(family: string) | Grant(jti: string, family: string)

  // Tokens minted before families existed are a family of one.
  function FamilyOf(familyId: Option<string>, jti: string): string {
    match familyId
    case Some(f) => if f == "" then jti else f
    case None => jti
  }

  // What the service answers to a presented token, given the rows it reads.
  function Judge(rows: set<string>, jti: string, family: string): Verdict {
    if Marker(family) in rows then Deny
    else if jti in rows then Kill(family)
    else Grant(jti, family)
  }

  function JudgePayload(rows: set<string>, d: Decoded, users: set<int>): Verdict {
    match d
    case Invalid => Deny
    case Payload(typ, jti, sub, familyId) =>
      if typ != "refresh" || jti == None || jti.value == "" || sub == None || sub.value !in users then Deny
      else Judge(rows, jti.value, FamilyOf(familyId, jti.value))
  }

  // The rows a verdict adds.
  function Added(v: Verdict): set<string> {
    match v
    case Deny => {}
    case Kill(family) => {Marker(family)}
    case Grant(jti, _) => {jti}
  }

  class AuthService {
    var rows: set<string>

    constructor ()
      ensures rows == {}
    {
      rows := {};
    }

    method RevokeRefreshFamily(family: string)
      modifies this
      ensures rows == old(rows) + {Marker(family)}
    {
      if Marker(family) in rows { return; }
      rows := rows + {Marker(family)};
    }

    method RotateRefreshToken(d: Decoded, users: set<int>) returns (granted: bool, family: string)
      modifies this
      ensures var v := JudgePayload(old(rows), d, users);
              && (granted <==> v.Grant?)
              && (granted ==> family == v.family)
              && rows == old(rows) + Added(v)
      // A new pair is granted exactly for a refresh token, with its id and a known user, that has not been
      // used and whose family is not revoked.
      ensures granted <==>
              && d.Payload? && d.typ == "refresh" && d.jti.Some? && d.jti.value != ""
              && d.sub.Some? && d.sub.value in users
              && "family-revoked:"
                   + (if d.familyId.Some? && d.familyId.value != "" then d.familyId.value else d.jti.value)
                 !in old(rows)
              && d.jti.value !in old(rows)
      ensures granted ==> rows == old(rows) + {d.jti.value}
      ensures granted ==> family == if d.familyId.Some? && d.familyId.value != "" then d.familyId.value else d.jti.value
      // A refusal leaves the table alone, but for a used token presented again in a live family.
      ensures !granted && rows != old(rows) ==>
                && d.Payload? && d.typ == "refresh" && d.jti.Some? && d.jti.value in old(rows)
                && d.sub.Some? && d.sub.value in users
                && rows == old(rows) + {"family-revoked:" + family}
    {
      granted, family := false, "";
      if d.Invalid? || d.typ != "refresh" { return; }
      if d.jti == None || d.jti.value == "" || d.sub == None { return; }
      var jti := d.jti.value;
      family := FamilyOf(d.familyId, jti);
      if d.sub.value !in users { return; }
      if Marker(family) in rows { return; }
      if jti in rows {
        RevokeRefreshFamily(family);
        return;
      }
      rows := rows + {jti};
      granted := true;
    }

    // A token works once: presented again it is refused and takes its family down, and from then on
    // nothing of the family is granted.
    method RotateTwice(d: Decoded, users: set<int>, later: Decoded) returns (first: bool, second: bool, third: bool)
      requires d.Payload? ==> d.jti.Some? ==> IsTokenId(d.jti.value)
      requires d.Payload? && later.Payload? && d.jti.Some? && later.jti.Some?
      requires FamilyOf(later.familyId, later.jti.value) == FamilyOf(d.familyId, d.jti.value)
      modifies this
      ensures !second
      ensures first ==> !third
      ensures first ==> Marker(FamilyOf(d.familyId, d.jti.value)) in rows
    {
      var f1, f2, f3;
      first, f1 := RotateRefreshToken(d, users);
      MarkerDistinct(FamilyOf(d.familyId, d.jti.value), "", d.jti.value);
      second, f2 := RotateRefreshToken(d, users);
      third, f3 := RotateRefreshToken(later, users);
    }
  }
}

/** Concurrent requests against one revocation table. */
module RefreshProtocol {
  import opened Wrappers
  import opened RefreshTokens

  datatype Event = Issued(jti: string, family: string)
                 | Rotated(jti: string, family: string)
                 | Revoked(family: string)

  // A request between its read and its commit: its verdict and, for a grant, the id of the token it
  // would hand out.
  datatype Pending = Pending(verdict: Verdict, child: string)

  // `issued` maps every refresh token handed out to its family, `newest` every family to the token
  // handed out last.
  datatype State = State(rows: set<string>, issued: map<string, string>, newest: map<string, string>,
                         pending: map<nat, Pending>, log: seq<Event>)

  datatype Label = Login(family: string, jti: string)
                 | Present(request: nat, token: Decoded, users: set<int>, child: string)
                 | Logout(request: nat, family: string)
                 | Commit(request: nat)
                 | Abort(request: nat)

  const INIT := State({}, map[], map[], map[], [])

  ghost predicate Fresh(s: State, jti: string) {
    IsTokenId(jti) && jti !in s.issued && forall r :: r in s.pending ==> s.pending[r].child != jti
  }

  // The signature holds: a refresh token is one that was handed out, with its family. Any other token may
  // carry any claims.
  ghost predicate Genuine(s: State, d: Decoded) {
    d.Payload? && d.typ == "refresh" ==>
      d.jti.Some? && d.jti.value in s.issued && s.issued[d.jti.value] == FamilyOf(d.familyId, d.jti.value)
  }

  ghost predicate Enabled(s: State, l: Label) {
    match l
    case Login(family, jti) => family != "" && family !in s.newest && Fresh(s, jti)
    case Present(r, token, _, child) => r !in s.pending && Genuine(s, token) && Fresh(s, child)
    case Logout(r, family) => r !in s.pending && family in s.newest
    case Commit(r) => r in s.pending
    case Abort(r) => r in s.pending
  }

  // The unique key on the revocation table lets a commit through only if it adds nothing that is
  // already there; otherwise the transaction fails and changes nothing.
  ghost function Apply(s: State, l: Label): State
    requires Enabled(s, l)
  {
    match l
    case Login(family, jti) =>
      s.(issued := s.issued[jti := family], newest := s.newest[family := jti], log := s.log + [Issued(jti, family)])
    case Present(r, token, users, child) =>
      s.(pending := s.pending[r := Pending(JudgePayload(s.rows, token, users), child)])
    case Logout(r, family) =>
      s.(pending := s.pending[r := Pending(if Marker(family) in s.rows then Deny else Kill(family), "")])
    case Abort(r) => s.(pending := s.pending - {r})
    case Commit(r) =>
      var p := s.pending[r];
      var s' := s.(pending := s.pending - {r});
      if p.verdict.Deny? || Added(p.verdict) <= s.rows then s'
      else if p.verdict.Kill? then
        s'.(rows := s.rows + Added(p.verdict), log := s.log + [Revoked(p.verdict.family)])
      else
        s'.(rows := s.rows + Added(p.verdict), issued := s.issued[p.child := p.verdict.family],
            newest := s.newest[p.verdict.family := p.child],
            log := s.log + [Rotated(p.verdict.jti, p.verdict.family)])
  }

  ghost predicate Run(states: seq<State>, labels: seq<Label>) {
    && |states| == |labels| + 1
    && forall i :: 0 <= i < |labels| ==> Enabled(states[i], labels[i]) && states[i + 1] == Apply(states[i], labels[i])
  }

  // ----- Reading the log -----

  predicate WasRevoked(log: seq<Event>, family: string) { Revoked(family) in log }

  function Rotations(log: seq<Event>, jti: string): nat {
    if log == [] then 0
    else Rotations(log[..|log| - 1], jti) + if log[|log| - 1].Rotated? && log[|log| - 1].jti == jti then 1 else 0
  }

  // Rotations of the family that committed after its revocation did.
  function LateRotations(log: seq<Event>, family: string): nat {
    if log == [] then 0
    else
      var last := log[|log| - 1];
      LateRotations(log[..|log| - 1], family)
      + if last.Rotated? && last.family == family && WasRevoked(log[..|log| - 1], family) then 1 else 0
  }

  // ----- The invariant -----

  // Every family has one token that was handed out last; it is the only unused one.
  ghost predicate Chains(s: State) {
    && (forall f :: f in s.newest ==> s.newest[f] in s.issued && s.issued[s.newest[f]] == f)
    && (forall j :: j in s.issued ==>
          IsTokenId(j) && s.issued[j] in s.newest && (j in s.rows <==> s.newest[s.issued[j]] != j))
    && (forall j :: j in s.rows && IsTokenId(j) ==> j in s.issued)
    && (forall f :: Marker(f) in s.rows ==> f in s.newest)
  }

  ghost predicate PendingOk(s: State) {
    && (forall r :: r in s.pending && s.pending[r].verdict.Grant? ==>
          var p := s.pending[r];
          && p.verdict.jti in s.issued && s.issued[p.verdict.jti] == p.verdict.family
          && IsTokenId(p.child) && p.child !in s.issued)
    && (forall q, r ::
          (q in s.pending && r in s.pending && q != r && s.pending[q].verdict.Grant? && s.pending[r].verdict.Grant?)
          ==> s.pending[q].child != s.pending[r].child)
    && (forall r :: r in s.pending && s.pending[r].verdict.Kill? ==> s.pending[r].verdict.family in s.newest)
  }

  ghost predicate LogOk(s: State) {
    && (forall jti :: IsTokenId(jti) ==> Rotations(s.log, jti) == if jti in s.rows then 1 else 0)
    && (forall jti :: !IsTokenId(jti) ==> Rotations(s.log, jti) == 0)
    && (forall f :: Marker(f) in s.rows <==> WasRevoked(s.log, f))
  }

  ghost predicate Doomed(s: State, family: string) {
    forall r :: r in s.pending && s.pending[r].verdict.Grant? && s.pending[r].verdict.family == family
      ==> s.pending[r].verdict.jti in s.rows
  }

  // After a revocation at most one rotation already under way can still commit; once it has, every
  // request still pending in the family is bound to fail.
  ghost predicate LateOk(s: State) {
    && (forall f :: LateRotations(s.log, f) <= 1)
    && (forall f :: LateRotations(s.log, f) == 1 ==> Marker(f) in s.rows && Doomed(s, f))
  }

  ghost predicate Inv(s: State) { Chains(s) && PendingOk(s) && LogOk(s) && LateOk(s) }

  lemma LogGrows(log: seq<Event>, e: Event)
    ensures forall jti :: Rotations(log + [e], jti) == Rotations(log, jti) + if e.Rotated? && e.jti == jti then 1 else 0
    ensures forall f :: WasRevoked(log + [e], f) <==> WasRevoked(log, f) || e == Revoked(f)
    ensures forall f :: LateRotations(log + [e], f)
                        == LateRotations(log, f) + if e.Rotated? && e.family == f && WasRevoked(log, f) then 1 else 0
  {
    assert (log + [e])[..|log|] == log;
  }

  lemma MarkersDistinct()
    ensures forall f, jti :: IsTokenId(jti) ==> Marker(f) != jti
    ensures forall f, g :: Marker(f) == Marker(g) ==> f == g
  {
    forall f, jti | IsTokenId(jti) ensures Marker(f) != jti { MarkerDistinct(f, f, jti); }
    forall f, g | Marker(f) == Marker(g) ensures f == g { MarkerDistinct(f, g, "0"); }
  }

  lemma LoginKeeps(s: State, family: string, jti: string)
    requires Inv(s) && Enabled(s, Login(family, jti))
    ensures Inv(Apply(s, Login(family, jti)))
  {
    MarkersDistinct();
    LogGrows(s.log, Issued(jti, family));
  }

  // A pending request may start or go away: nothing else changes.
  lemma PresentKeeps(s: State, l: Label)
    requires Inv(s) && (l.Present? || l.Logout? || l.Abort?) && Enabled(s, l)
    ensures Inv(Apply(s, l))
  {
    var s' := Apply(s, l);
    assert s'.rows == s.rows && s'.issued == s.issued && s'.newest == s.newest && s'.log == s.log;
    assert Chains(s') && LogOk(s');
    PresentPending(s, l);
    PresentLate(s, l);
  }

  lemma PresentPending(s: State, l: Label)
    requires Chains(s) && PendingOk(s) && (l.Present? || l.Logout? || l.Abort?) && Enabled(s, l)
    ensures PendingOk(Apply(s, l))
  {
    MarkersDistinct();
  }

  lemma PresentLate(s: State, l: Label)
    requires Chains(s) && LateOk(s) && (l.Present? || l.Logout? || l.Abort?) && Enabled(s, l)
    ensures LateOk(Apply(s, l))
  {
    var s' := Apply(s, l);
    forall f | LateRotations(s.log, f) == 1 ensures Doomed(s', f) { assert Doomed(s, f); }
  }

  lemma KillKeeps(s: State, r: nat)
    requires Inv(s) && r in s.pending && !s.pending[r].verdict.Grant?
    ensures Inv(Apply(s, Commit(r)))
  {
    var v := s.pending[r].verdict;
    var s' := Apply(s, Commit(r));
    if v.Deny? || Added(v) <= s.rows {
      PresentKeeps(s, Abort(r));
    } else {
      KillChains(s, s', v.family);
      KillLog(s, s', v.family);
      KillLate(s, s', v.family);
      assert PendingOk(s');
    }
  }

  lemma LateAfter(log: seq<Event>, e: Event, f: string)
    ensures LateRotations(log + [e], f)
            == LateRotations(log, f) + if e.Rotated? && e.family == f && WasRevoked(log, f) then 1 else 0
  {
    assert (log + [e])[..|log|] == log;
  }

  lemma KillLate(s: State, s': State, family: string)
    requires LateOk(s) && s.rows <= s'.rows && s'.log == s.log + [Revoked(family)]
    requires forall q :: q in s'.pending ==> q in s.pending && s'.pending[q] == s.pending[q]
    ensures LateOk(s')
  {
    forall f
      ensures LateRotations(s'.log, f) <= 1
      ensures LateRotations(s'.log, f) == 1 ==> Marker(f) in s'.rows && Doomed(s', f)
    {
      LateAfter(s.log, Revoked(family), f);
      assert LateRotations(s.log, f) == 1 ==> Doomed(s, f);
    }
  }

  lemma KillChains(s: State, s': State, family: string)
    requires Chains(s) && family in s.newest
    requires s'.rows == s.rows + {Marker(family)} && s'.issued == s.issued && s'.newest == s.newest
    ensures Chains(s')
  {
    MarkersDistinct();
  }

  lemma KillLog(s: State, s': State, family: string)
    requires LogOk(s) && s'.rows == s.rows + {Marker(family)} && s'.log == s.log + [Revoked(family)]
    ensures LogOk(s')
  {
    LogGrows(s.log, Revoked(family));
    MarkersDistinct();
  }

  lemma GrantChains(s: State, r: nat)
    requires Chains(s) && PendingOk(s) && r in s.pending && s.pending[r].verdict.Grant?
    ensures s.pending[r].verdict.jti !in s.rows ==> s.newest[s.pending[r].verdict.family] == s.pending[r].verdict.jti
    ensures Chains(Apply(s, Commit(r)))
  {
    var Grant(jti, family) := s.pending[r].verdict;
    if jti !in s.rows { NewestMoves(s, Apply(s, Commit(r)), jti, family, s.pending[r].child); }
  }

  // The family's newest token is used up and the child takes its place.
  lemma NewestMoves(s: State, s': State, jti: string, family: string, child: string)
    requires Chains(s) && jti in s.issued && s.issued[jti] == family && jti !in s.rows
    requires IsTokenId(child) && child !in s.issued
    requires s'.rows == s.rows + {jti} && s'.issued == s.issued[child := family]
               && s'.newest == s.newest[family := child]
    ensures s.newest[family] == jti && Chains(s')
  {
    MarkersDistinct();
  }

  lemma GrantPending(s: State, r: nat)
    requires Chains(s) && PendingOk(s) && r in s.pending && s.pending[r].verdict.Grant?
    ensures PendingOk(Apply(s, Commit(r)))
  {
  }

  // What committing a grant does to rows and log.
  lemma GrantEffect(s: State, r: nat)
    requires r in s.pending && s.pending[r].verdict.Grant?
    ensures var Grant(jti, family) := s.pending[r].verdict;
            var s' := Apply(s, Commit(r));
            && s'.pending == s.pending - {r}
            && (jti in s.rows ==> s'.rows == s.rows && s'.log == s.log)
            && (jti !in s.rows ==> s'.rows == s.rows + {jti} && s'.log == s.log + [Rotated(jti, family)])
  {
  }

  lemma GrantLog(s: State, r: nat)
    requires Chains(s) && PendingOk(s) && LogOk(s) && r in s.pending && s.pending[r].verdict.Grant?
    ensures LogOk(Apply(s, Commit(r)))
  {
    var Grant(jti, family) := s.pending[r].verdict;
    var s' := Apply(s, Commit(r));
    GrantEffect(s, r);
    if jti !in s.rows {
      LogGrows(s.log, Rotated(jti, family));
      forall f ensures Marker(f) in s'.rows <==> WasRevoked(s'.log, f) { MarkerDistinct(f, f, jti); }
      forall j ensures Rotations(s'.log, j) == if IsTokenId(j) && j in s'.rows then 1 else 0 {
        assert Rotations(s'.log, j) == Rotations(s.log, j) + if j == jti then 1 else 0;
      }
    }
  }

  lemma GrantLate(s: State, r: nat)
    requires Inv(s) && r in s.pending && s.pending[r].verdict.Grant?
    ensures LateOk(Apply(s, Commit(r)))
  {
    var Grant(jti, family) := s.pending[r].verdict;
    var s' := Apply(s, Commit(r));
    GrantEffect(s, r);
    if jti in s.rows {
      forall f | LateRotations(s'.log, f) == 1 ensures Doomed(s', f) { assert Doomed(s, f); }
    } else {
      GrantDooms(s, r);
      assert Doomed(s, family) ==> jti in s.rows;
      RotationLate(s, s', jti, family);
    }
  }

  lemma RotationLate(s: State, s': State, jti: string, family: string)
    requires LateOk(s) && s.rows <= s'.rows && s'.log == s.log + [Rotated(jti, family)]
    requires forall q :: q in s'.pending ==> q in s.pending && s'.pending[q] == s.pending[q]
    requires !Doomed(s, family) && Doomed(s', family) && (WasRevoked(s.log, family) ==> Marker(family) in s'.rows)
    ensures LateOk(s')
  {
    forall f
      ensures LateRotations(s'.log, f) <= 1
      ensures LateRotations(s'.log, f) == 1 ==> Marker(f) in s'.rows && Doomed(s', f)
    {
      LateAfter(s.log, Rotated(jti, family), f);
      assert LateRotations(s.log, f) == 1 ==> Doomed(s, f);
      assert f != family && Doomed(s, f) ==> Doomed(s', f);
    }
  }

  lemma GrantDooms(s: State, r: nat)
    requires Inv(s) && r in s.pending && s.pending[r].verdict.Grant? && s.pending[r].verdict.jti !in s.rows
    ensures Doomed(Apply(s, Commit(r)), s.pending[r].verdict.family)
  {
    var Grant(jti, family) := s.pending[r].verdict;
    var s' := Apply(s, Commit(r));
    GrantEffect(s, r);
    GrantChains(s, r);
    forall q | q in s'.pending && s'.pending[q].verdict.Grant? && s'.pending[q].verdict.family == family
      ensures s'.pending[q].verdict.jti in s'.rows
    {
      assert s.pending[q] == s'.pending[q];
    }
  }

  lemma GrantKeeps(s: State, r: nat)
    requires Inv(s) && r in s.pending && s.pending[r].verdict.Grant?
    ensures Inv(Apply(s, Commit(r)))
  {
    GrantChains(s, r);
    GrantPending(s, r);
    GrantLog(s, r);
    GrantLate(s, r);
  }

  lemma StepKeeps(s: State, l: Label)
    requires Inv(s) && Enabled(s, l)
    ensures Inv(Apply(s, l))
  {
    match l
    case Login(family, jti) => LoginKeeps(s, family, jti);
    case Commit(r) => if s.pending[r].verdict.Grant? { GrantKeeps(s, r); } else { KillKeeps(s, r); }
    case _ => PresentKeeps(s, l);
  }

  lemma {:induction false} InvAlways(states: seq<State>, labels: seq<Label>, i: nat)
    requires Run(states, labels) && states[0] == INIT && i < |states|
    ensures Inv(states[i])
  {
    if i > 0 {
      InvAlways(states, labels, i - 1);
      StepKeeps(states[i - 1], labels[i - 1]);
    }
  }

  // ----- Main results, over every run of any number of concurrent requests -----

  predicate Unused(s: State, family: string, j: string) {
    j in s.issued && s.issued[j] == family && j !in s.rows
  }

  // Every family ever opened has exactly one unused refresh token.
  lemma OneUnusedToken(states: seq<State>, labels: seq<Label>, i: nat, family: string)
    requires Run(states, labels) && states[0] == INIT && i < |states|
    requires family in states[i].newest
    ensures exists j :: Unused(states[i], family, j)
    ensures forall j, k :: Unused(states[i], family, j) && Unused(states[i], family, k) ==> j == k
  {
    InvAlways(states, labels, i);
    var j := states[i].newest[family];
    assert Unused(states[i], family, j);
  }

  // A token rotates at most once, however many requests present it at the same time.
  lemma RotatesAtMostOnce(states: seq<State>, labels: seq<Label>, i: nat, a: nat, b: nat)
    requires Run(states, labels) && states[0] == INIT && i < |states|
    requires a < b < |states[i].log| && states[i].log[a].Rotated? && states[i].log[b].Rotated?
    ensures states[i].log[a].jti != states[i].log[b].jti
  {
    InvAlways(states, labels, i);
    if states[i].log[a].jti == states[i].log[b].jti {
      CountsTwo(states[i].log, a, b);
    }
  }

  lemma {:induction false} CountsTwo(log: seq<Event>, a: nat, b: nat)
    requires a < b < |log| && log[a].Rotated? && log[b].Rotated? && log[a].jti == log[b].jti
    ensures Rotations(log, log[a].jti) >= 2
    decreases |log|
  {
    var front := log[..|log| - 1];
    if b < |front| {
      CountsTwo(front, a, b);
    } else {
      CountsOne(front, a);
    }
  }

  lemma {:induction false} CountsOne(log: seq<Event>, a: nat)
    requires a < |log| && log[a].Rotated?
    ensures Rotations(log, log[a].jti) >= 1
    decreases |log|
  {
    if a < |log| - 1 { CountsOne(log[..|log| - 1], a); }
  }

  // Once a family's revocation has committed, at most one rotation that had already read the table
  // can still commit in it.
  lemma AtMostOneLateRotation(states: seq<State>, labels: seq<Label>, i: nat, family: string, k: nat, a: nat, b: nat)
    requires Run(states, labels) && states[0] == INIT && i < |states|
    requires k < a < b < |states[i].log| && states[i].log[k] == Revoked(family)
    requires states[i].log[a].Rotated? && states[i].log[b].Rotated?
    ensures !(states[i].log[a].family == family && states[i].log[b].family == family)
  {
    InvAlways(states, labels, i);
    if states[i].log[a].family == family && states[i].log[b].family == family {
      LateTwo(states[i].log, family, k, a, b);
    }
  }

  lemma {:induction false} LateTwo(log: seq<Event>, family: string, k: nat, a: nat, b: nat)
    requires k < a < b < |log| && log[k] == Revoked(family)
    requires log[a].Rotated? && log[b].Rotated? && log[a].family == family && log[b].family == family
    ensures LateRotations(log, family) >= 2
    decreases |log|
  {
    var front := log[..|log| - 1];
    if b < |front| {
      LateTwo(front, family, k, a, b);
    } else {
      assert front[k] == Revoked(family);
      LateOne(front, family, k, a);
    }
  }

  lemma {:induction false} LateOne(log: seq<Event>, family: string, k: nat, a: nat)
    requires k < a < |log| && log[k] == Revoked(family) && log[a].Rotated? && log[a].family == family
    ensures LateRotations(log, family) >= 1
    decreases |log|
  {
    var front := log[..|log| - 1];
    assert front[k] == Revoked(family);
    if a < |front| { LateOne(front, family, k, a); }
  }

  // The family is revoked and no rotation that could still commit is under way in it. When requests
  // run one at a time this is every state after a replay or a logout.
  ghost predicate Quiet(s: State, family: string) { Marker(family) in s.rows && Doomed(s, family) }

  // A revoked family still rotates in the next step exactly when a grant read before the revocation
  // is pending for a token not used since.
  lemma LateRotationExactly(s: State, family: string)
    requires Inv(s) && Marker(family) in s.rows
    ensures !Quiet(s, family) <==>
            exists r, jti :: r in s.pending && Apply(s, Commit(r)).log == s.log + [Rotated(jti, family)]
  {
    if !Quiet(s, family) {
      var r :| r in s.pending && s.pending[r].verdict.Grant? && s.pending[r].verdict.family == family
               && s.pending[r].verdict.jti !in s.rows;
      GrantEffect(s, r);
    }
    if r, jti :| r in s.pending && Apply(s, Commit(r)).log == s.log + [Rotated(jti, family)] {
      assert Apply(s, Commit(r)).log[|s.log|] == Rotated(jti, family);
      assert s.pending[r].verdict.Grant? && s.pending[r].verdict.family == family;
      GrantEffect(s, r);
    }
  }

  ghost predicate Follows(s: State, l: Label, s': State) { Enabled(s, l) && s' == Apply(s, l) }

  // A login, and a request that has read the table.
  lemma WindowOpens(family: string, t0: string, t1: string) returns (present: Label, s1: State, s2: State)
    requires IsTokenId(t0) && IsTokenId(t1) && t0 != t1 && family != ""
    ensures Follows(INIT, Login(family, t0), s1) && Follows(s1, present, s2)
    ensures s2 == State({}, map[t0 := family], map[family := t0], map[1 := Pending(Grant(t0, family), t1)],
                        [Issued(t0, family)])
  {
    present := Present(1, Payload("refresh", Some(t0), Some(1), Some(family)), {1}, t1);
    s1 := State({}, map[t0 := family], map[family := t0], map[], [Issued(t0, family)]);
    s2 := s1.(pending := map[1 := Pending(Grant(t0, family), t1)]);
    assert Apply(INIT, Login(family, t0)) == s1;
    assert Apply(s1, present) == s2;
  }

  lemma LogoutPasses(family: string, t0: string, t1: string, s2: State) returns (s3: State, s4: State)
    requires s2 == State({}, map[t0 := family], map[family := t0], map[1 := Pending(Grant(t0, family), t1)],
                         [Issued(t0, family)])
    ensures Follows(s2, Logout(2, family), s3) && Follows(s3, Commit(2), s4)
    ensures s4 == s2.(rows := {Marker(family)}, log := [Issued(t0, family), Revoked(family)])
  {
    s3 := s2.(pending := map[1 := Pending(Grant(t0, family), t1), 2 := Pending(Kill(family), "")]);
    s4 := s2.(rows := {Marker(family)}, log := [Issued(t0, family), Revoked(family)]);
    assert Apply(s2, Logout(2, family)) == s3;
    assert Apply(s3, Commit(2)) == s4;
  }

  // The window is real: a rotation that read the table first commits after the logout.
  lemma LateRotationHappens(family: string, t0: string, t1: string)
    requires IsTokenId(t0) && IsTokenId(t1) && t0 != t1 && family != ""
    ensures exists states: seq<State>, labels: seq<Label> :: Run(states, labels) && states[0] == INIT && labels != []
              && states[|labels|].log == [Issued(t0, family), Revoked(family), Rotated(t0, family)]
  {
    var present, s1, s2 := WindowOpens(family, t0, t1);
    var s3, s4 := LogoutPasses(family, t0, t1, s2);
    var s5 := RotationPasses(family, t0, t1, s4);
    var labels := [Login(family, t0), present, Logout(2, family), Commit(2), Commit(1)];
    var states := [INIT, s1, s2, s3, s4, s5];
    forall i | 0 <= i < |labels| ensures Follows(states[i], labels[i], states[i + 1]) { }
    assert Run(states, labels) && states[|labels|] == s5;
  }

  lemma RotationPasses(family: string, t0: string, t1: string, s4: State) returns (s5: State)
    requires IsTokenId(t0)
    requires s4.rows == {Marker(family)} && s4.pending == map[1 := Pending(Grant(t0, family), t1)]
    requires s4.log == [Issued(t0, family), Revoked(family)]
    ensures Follows(s4, Commit(1), s5) && s5.log == [Issued(t0, family), Revoked(family), Rotated(t0, family)]
  {
    MarkerDistinct(family, family, t0);
    s5 := Apply(s4, Commit(1));
  }

  // A refresh token with its id and a known user.
  predicate Presents(l: Label, r: nat, jti: string, family: string) {
    && l.Present? && l.request == r && l.token.Payload? && l.token.typ == "refresh"
    && l.token.jti == Some(jti) && FamilyOf(l.token.familyId, jti) == family
    && l.token.sub.Some? && l.token.sub.value in l.users
  }

  lemma {:induction false} GrantsWerePresented(states: seq<State>, labels: seq<Label>, n: nat, r: nat)
    requires Run(states, labels) && states[0] == INIT && n < |states|
    requires r in states[n].pending && states[n].pending[r].verdict.Grant?
    ensures exists k ::
              0 <= k < n
                && Presents(labels[k], r, states[n].pending[r].verdict.jti, states[n].pending[r].verdict.family)
  {
    var v := states[n].pending[r].verdict;
    assert Enabled(states[n - 1], labels[n - 1]) && states[n] == Apply(states[n - 1], labels[n - 1]);
    if labels[n - 1].Present? && labels[n - 1].request == r {
      assert Presents(labels[n - 1], r, v.jti, v.family);
    } else {
      assert r in states[n - 1].pending && states[n - 1].pending[r] == states[n].pending[r];
      GrantsWerePresented(states, labels, n - 1, r);
    }
  }

  // Nothing but a refresh token ever rotates: whenever a rotation commits, its request had presented a
  // token of that type, with that id and family, for a known user.
  lemma OnlyRefreshTokensRotate(states: seq<State>, labels: seq<Label>, n: nat, jti: string, family: string)
    requires Run(states, labels) && states[0] == INIT && n < |labels|
    requires states[n + 1].log == states[n].log + [Rotated(jti, family)]
    ensures labels[n].Commit? && exists k :: 0 <= k < n && Presents(labels[k], labels[n].request, jti, family)
  {
    assert Enabled(states[n], labels[n]) && states[n + 1] == Apply(states[n], labels[n]);
    assert states[n + 1].log[|states[n].log|] == Rotated(jti, family);
    GrantsWerePresented(states, labels, n, labels[n].request);
  }

  // The family handed out no further token between the two states, and none of its tokens rotated.
  ghost predicate Frozen(s: State, later: State, family: string) {
    && (forall j :: j in later.issued && later.issued[j] == family ==> j in s.issued && s.issued[j] == family)
    && (forall j :: j in s.issued && s.issued[j] == family ==>
          j in later.issued && later.issued[j] == family && Rotations(later.log, j) == Rotations(s.log, j))
  }

  // From a quiet state on, no token of the family, old or new, ever rotates, in any continuation.
  lemma {:induction false} RevokedForever(states: seq<State>, labels: seq<Label>, i: nat, n: nat, family: string)
    requires Run(states, labels) && states[0] == INIT && i <= n < |states|
    requires Quiet(states[i], family)
    ensures Quiet(states[n], family) && Frozen(states[i], states[n], family)
  {
    if n > i {
      RevokedForever(states, labels, i, n - 1, family);
      QuietNext(states, labels, n - 1, family);
      FrozenTransitive(states[i], states[n - 1], states[n], family);
    }
  }

  lemma QuietNext(states: seq<State>, labels: seq<Label>, k: nat, family: string)
    requires Run(states, labels) && states[0] == INIT && k < |labels| && Quiet(states[k], family)
    ensures Quiet(states[k + 1], family) && Frozen(states[k], states[k + 1], family)
  {
    InvAlways(states, labels, k);
    QuietStep(states[k], labels[k], family);
  }

  lemma FrozenTransitive(a: State, b: State, c: State, family: string)
    requires Frozen(a, b, family) && Frozen(b, c, family)
    ensures Frozen(a, c, family)
  {
  }

  lemma QuietStep(s: State, l: Label, family: string)
    requires Inv(s) && Enabled(s, l) && Quiet(s, family)
    ensures Quiet(Apply(s, l), family) && Frozen(s, Apply(s, l), family)
  {
    if l.Commit? {
      QuietCommit(s, l.request, family);
    } else if l.Login? {
      LogGrows(s.log, Issued(l.jti, l.family));
    }
  }

  lemma QuietCommit(s: State, r: nat, family: string)
    requires Inv(s) && Enabled(s, Commit(r)) && Quiet(s, family)
    ensures Quiet(Apply(s, Commit(r)), family) && Frozen(s, Apply(s, Commit(r)), family)
  {
    var s' := Apply(s, Commit(r));
    if |s'.log| > |s.log| {
      LogGrows(s.log, s'.log[|s.log|]);
      assert s'.log == s.log + [s'.log[|s.log|]];
    }
  }

  // A request that runs alone is the service's one-shot rotation.
  lemma AloneIsAuthService(s: State, r: nat, token: Decoded, users: set<int>, child: string)
    requires Inv(s) && Enabled(s, Present(r, token, users, child))
    ensures var read := Apply(s, Present(r, token, users, child));
            Apply(read, Commit(r)).rows == s.rows + Added(JudgePayload(s.rows, token, users))
  {
    MarkersDistinct();
  }
}
