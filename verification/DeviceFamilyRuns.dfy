/** Every interleaving of device enrolment, refresh, revocation, approval, purge and account edits.

    The ledger beside the rows remembers which refresh token each family was issued last, every
    token ever issued, and every exchange; nothing in the services reads it. */
module DeviceFamilyRuns {
  import opened Common
  import opened DeviceFamilies

  datatype World = World(
    store: Store,
    latest: map<FamilyId, Raw>,   // the refresh token each family was issued last
    issued: set<Raw>,
    exchanged: seq<Jti>,          // identifiers exchanged for a successor, in order
    grantIds: set<GrantId>,       // identifiers are never reused
    jtis: set<Jti>)

  /** `BarFamily`, `EndGrant` and `Bar` are the separate commits a grant or account revocation is
      made of, so that a crash between them is a run too. */
  datatype Step =
    | Enrol(r: RegistrationId, u: UserId, g: GrantId, f: FamilyId, j: Jti, expires: Time, allowed: bool)
    | Rotate(raw: Raw, at: Time, allowed: bool, next: Jti, expires: Time)
    | EndGrant(g: GrantId, at: Time)
    | BarFamily(f: FamilyId, at: Time)
    | Bar(j: Jti)
    | Revoke(r: RegistrationId, at: Time)
    | SetApproval(r: RegistrationId, approval: Approval)
    | EditUser(u: UserId, user: User)
    | Cutover
    | Purge(r: RegistrationId)

  predicate Enabled(w: World, step: Step) {
    match step
    case Enrol(_, _, g, f, j, _, _) => g !in w.grantIds && f !in w.latest && j !in w.jtis
    case Rotate(_, _, _, next, _) => Linked(w.store) && next !in w.jtis && next !in w.store.tokens
    case BarFamily(f, _) => f in w.store.families
    case _ => true
  }

  function Purged(s: Store, r: RegistrationId): Store {
    var kept := map f | f in s.families && !IssuedUnder(s, r, s.families[f].grant) :: s.families[f];
    s.(tokens := map j | j in s.tokens && s.tokens[j].family in kept :: s.tokens[j],
       families := kept,
       grants := map g | g in s.grants && !IssuedUnder(s, r, g) :: s.grants[g])
  }

  function Next(w: World, step: Step): World
    requires Enabled(w, step)
  {
    var s := w.store;
    match step
    case Enrol(r, u, g, f, j, expires, allowed) =>
      if !Enrollable(s, r, u, allowed) then w
      else
        var raw := Minted(s, f, g, j, expires);
        w.(store := Enrolled(s, r, u, g, f, j, expires), latest := w.latest[f := raw],
           issued := w.issued + {raw}, grantIds := w.grantIds + {g}, jtis := w.jtis + {j})
    case Rotate(raw, at, allowed, next, expires) =>
      var w' := w.(store := Rotated(s, raw, at, allowed, next, expires));
      if VerdictOn(s, raw, at, allowed) != Exchanged then w'
      else
        var f := s.tokens[raw.jti.value].family;
        var successor := Minted(s, f, s.families[f].grant, next, expires);
        w'.(latest := w.latest[f := successor], issued := w.issued + {successor},
            exchanged := w.exchanged + [raw.jti.value], jtis := w.jtis + {next})
    case EndGrant(g, at) => w.(store := GrantEnded(s, g, at))
    case BarFamily(f, at) => w.(store := FamilyBarred(s, f, false, at))
    case Bar(j) => w.(store := s.(barred := s.barred + {j}))
    case Revoke(r, at) => w.(store := RegistrationRevoked(s, r, at))
    case SetApproval(r, approval) => w.(store := s.(registrations := s.registrations[r := approval]))
    case EditUser(u, user) => w.(store := s.(users := s.users[u := user]))
    case Cutover => w.(store := s.(generation := s.generation + 1))
    case Purge(r) => w.(store := Purged(s, r))
  }

  function Start(users: map<UserId, User>, registrations: map<RegistrationId, Approval>, generation: nat): World {
    World(Store(users, registrations, map[], map[], map[], {}, generation), map[], {}, [], {}, {})
  }

  predicate Run(w: World, steps: seq<Step>)
    decreases |steps|
  {
    steps == [] || (Enabled(w, steps[0]) && Run(Next(w, steps[0]), steps[1..]))
  }

  function End(w: World, steps: seq<Step>): World
    requires Run(w, steps)
    decreases |steps|
  {
    if steps == [] then w else End(Next(w, steps[0]), steps[1..])
  }

  // ---- The invariant -----------------------------------------------------------------------

  ghost predicate TokenInv(w: World, j: Jti)
    requires Linked(w.store) && j in w.store.tokens
  {
    var t := w.store.tokens[j];
    var family := w.store.families[t.family];
    && t.fingerprint.kind == "refresh" && t.fingerprint.jti == Some(j) && j in w.jtis
    && t.fingerprint.family == Some(t.family) && t.fingerprint.grant == Some(family.grant)
    && t.fingerprint in w.issued
    && (j in w.exchanged <==> t.rotatedAt.Some?)
    && (t.rotatedAt.Some? ==> t.blacklistedAt.Some?)
    && t.family in w.latest
    && (family.revokedAt.None? ==> (Unspent(t) <==> w.latest[t.family] == t.fingerprint))
  }

  ghost predicate FamilyInv(w: World, f: FamilyId)
    requires Linked(w.store) && f in w.store.families
  {
    && f in w.latest
    && w.latest[f].jti.Some? && w.latest[f].jti.value in w.store.tokens
    && w.store.tokens[w.latest[f].jti.value].fingerprint == w.latest[f]
    && w.store.tokens[w.latest[f].jti.value].family == f
    && w.store.families[f].user == w.store.grants[w.store.families[f].grant].user
  }

  ghost predicate IssuedInv(w: World, raw: Raw) {
    && raw.jti.Some? && raw.jti.value in w.jtis
    && raw.family.Some? && raw.family.value in w.latest
    && raw.kind == "refresh" && raw.grant.Some? && raw.grant.value in w.grantIds
    && (raw.grant.value in w.store.grants ==> raw.family.value in w.store.families)
    && (raw.jti.value in w.store.tokens <==> raw.family.value in w.store.families)
    && (raw.jti.value in w.store.tokens ==> w.store.tokens[raw.jti.value].fingerprint == raw)
  }

  ghost predicate LogInv(w: World) {
    && (forall g | g in w.store.grants :: g in w.grantIds)
    && (forall j | j in w.exchanged :: j in w.jtis)
    && (forall i, k | 0 <= i < k < |w.exchanged| :: w.exchanged[i] != w.exchanged[k])
  }

  ghost predicate Inv(w: World) {
    && Linked(w.store)
    && (forall j | j in w.store.tokens :: TokenInv(w, j))
    && (forall f | f in w.store.families :: FamilyInv(w, f))
    && (forall raw | raw in w.issued :: IssuedInv(w, raw))
    && LogInv(w)
  }

  lemma EnrolKeeps(w: World, step: Step)
    requires Inv(w) && step.Enrol? && Enabled(w, step)
    ensures Inv(Next(w, step))
  {
    var w' := Next(w, step);
    if Enrollable(w.store, step.r, step.u, step.allowed) {
      assert Linked(w'.store);
      forall j | j in w'.store.tokens ensures TokenInv(w', j) {
        if j != step.j { assert TokenInv(w, j); }
      }
      forall f | f in w'.store.families ensures FamilyInv(w', f) {
        if f != step.f { assert FamilyInv(w, f); }
      }
      forall raw | raw in w'.issued ensures IssuedInv(w', raw) {
        if raw in w.issued { assert IssuedInv(w, raw); }
      }
    }
  }

  lemma FamilyBarredKeeps(w: World, f: FamilyId, reuse: bool, at: Time)
    requires Inv(w) && f in w.store.families
    ensures Inv(w.(store := FamilyBarred(w.store, f, reuse, at)))
  {
    var w' := w.(store := FamilyBarred(w.store, f, reuse, at));
    assert Linked(w'.store);
    forall j | j in w'.store.tokens ensures TokenInv(w', j) { assert TokenInv(w, j); }
    forall k | k in w'.store.families ensures FamilyInv(w', k) { assert FamilyInv(w, k); }
    forall raw | raw in w'.issued ensures IssuedInv(w', raw) { assert IssuedInv(w, raw); }
  }

  lemma GrantEndedKeeps(w: World, g: GrantId, at: Time)
    requires Inv(w)
    ensures Inv(w.(store := GrantEnded(w.store, g, at)))
  {
    var w' := w.(store := GrantEnded(w.store, g, at));
    assert Linked(w'.store);
    forall j | j in w'.store.tokens ensures TokenInv(w', j) { assert TokenInv(w, j); }
    forall f | f in w'.store.families ensures FamilyInv(w', f) { assert FamilyInv(w, f); }
    forall raw | raw in w'.issued ensures IssuedInv(w', raw) { assert IssuedInv(w, raw); }
  }

  /** What an exchange replaces: the presented row, the family's latest token, the logs. */
  ghost predicate Exchanges(w: World, w': World, j: Jti, next: Jti) {
    && j in w.store.tokens && j in w.jtis && next !in w.jtis && next !in w.store.tokens
    && j in w'.store.tokens && next in w'.store.tokens
    && var t := w.store.tokens[j];
       var heir := w'.store.tokens[next];
       && Unspent(t)
       && w'.store == w.store.(tokens := w'.store.tokens, barred := w'.store.barred)
       && w'.store.tokens == w.store.tokens[j := w'.store.tokens[j]][next := heir]
       && w'.store.tokens[j].rotatedAt.Some? && w'.store.tokens[j].blacklistedAt.Some?
       && w'.store.tokens[j].family == t.family && w'.store.tokens[j].fingerprint == t.fingerprint
       && heir.family == t.family && Unspent(heir)
       && t.family in w.store.families && w.store.families[t.family].revokedAt.None?
       && (exists expires :: heir.fingerprint == Minted(w.store, t.family, w.store.families[t.family].grant, next, expires))
       && w'.latest == w.latest[t.family := heir.fingerprint]
       && w'.issued == w.issued + {heir.fingerprint}
       && w'.exchanged == w.exchanged + [j] && w'.jtis == w.jtis + {next} && w'.grantIds == w.grantIds
  }

  lemma ExchangeEffect(w: World, step: Step)
    requires Inv(w) && step.Rotate? && Enabled(w, step)
    requires VerdictOn(w.store, step.raw, step.at, step.allowed) == Exchanged
    ensures step.raw.jti.Some? && Exchanges(w, Next(w, step), step.raw.jti.value, step.next)
  {
    var j := step.raw.jti.value;
    assert TokenInv(w, j);
    var f := w.store.tokens[j].family;
    assert Next(w, step).store.tokens[step.next].fingerprint
        == Minted(w.store, f, w.store.families[f].grant, step.next, step.expires);
  }

  lemma ExchangeTokens(w: World, w': World, j: Jti, next: Jti)
    requires Inv(w) && Exchanges(w, w', j, next)
    ensures Linked(w'.store) && forall k | k in w'.store.tokens :: TokenInv(w', k)
  {
    assert TokenInv(w, j);
    assert Linked(w'.store);
    forall k | k in w'.store.tokens ensures TokenInv(w', k) {
      if k != next { assert TokenInv(w, k); }
    }
  }

  lemma ExchangeFamilies(w: World, w': World, j: Jti, next: Jti)
    requires Inv(w) && Exchanges(w, w', j, next) && Linked(w'.store)
    ensures forall f | f in w'.store.families :: FamilyInv(w', f)
  {
    forall f | f in w'.store.families ensures FamilyInv(w', f) { assert FamilyInv(w, f); }
  }

  lemma ExchangeIssued(w: World, w': World, j: Jti, next: Jti)
    requires Inv(w) && Exchanges(w, w', j, next)
    ensures forall raw | raw in w'.issued :: IssuedInv(w', raw)
  {
    forall raw | raw in w'.issued ensures IssuedInv(w', raw) {
      if raw in w.issued { assert IssuedInv(w, raw); }
    }
  }

  lemma ExchangeKeeps(w: World, w': World, j: Jti, next: Jti)
    requires Inv(w) && Exchanges(w, w', j, next)
    ensures Inv(w')
  {
    assert TokenInv(w, j);
    ExchangeTokens(w, w', j, next);
    ExchangeFamilies(w, w', j, next);
    ExchangeIssued(w, w', j, next);
    assert LogInv(w');
  }

  lemma RotateKeeps(w: World, step: Step)
    requires Inv(w) && step.Rotate? && Enabled(w, step)
    ensures Inv(Next(w, step))
  {
    var s := w.store;
    match VerdictOn(s, step.raw, step.at, step.allowed)
    case Exchanged =>
      ExchangeEffect(w, step);
      ExchangeKeeps(w, Next(w, step), step.raw.jti.value, step.next);
    case Invalid =>
    case RolledBack =>
    case verdict =>
      var f := s.tokens[step.raw.jti.value].family;
      FamilyBarredKeeps(w, f, verdict.Reuse?, step.at);
      GrantEndedKeeps(w.(store := FamilyBarred(s, f, verdict.Reuse?, step.at)), s.families[f].grant, step.at);
  }

  lemma RevokeLinks(s: Store, r: RegistrationId, at: Time)
    requires Linked(s)
    ensures var s' := RegistrationRevoked(s, r, at);
            && Linked(s') && s'.tokens == s.tokens
            && s'.families.Keys == s.families.Keys && s'.grants.Keys == s.grants.Keys
            && (forall f | f in s.families :: && s'.families[f].grant == s.families[f].grant
                                              && s'.families[f].user == s.families[f].user
                                              && (s'.families[f].revokedAt.None? ==> s.families[f].revokedAt.None?))
            && (forall g | g in s.grants :: s'.grants[g].user == s.grants[g].user)
  {}

  lemma RevokeKeeps(w: World, step: Step)
    requires Inv(w) && step.Revoke? && Enabled(w, step)
    ensures Inv(Next(w, step))
  {
    var w' := w.(store := RegistrationRevoked(w.store, step.r, step.at));
    RevokeLinks(w.store, step.r, step.at);
    forall j | j in w'.store.tokens ensures TokenInv(w', j) { assert TokenInv(w, j); }
    forall f | f in w'.store.families ensures FamilyInv(w', f) { assert FamilyInv(w, f); }
    forall raw | raw in w'.issued ensures IssuedInv(w', raw) { assert IssuedInv(w, raw); }
  }

  lemma PurgeKeeps(w: World, step: Step)
    requires Inv(w) && step.Purge? && Enabled(w, step)
    ensures Inv(Next(w, step))
  {
    var w' := Next(w, step);
    assert Linked(w'.store);
    forall j | j in w'.store.tokens ensures TokenInv(w', j) { assert TokenInv(w, j); }
    forall f | f in w'.store.families ensures FamilyInv(w', f) { assert FamilyInv(w, f); }
    forall raw | raw in w'.issued ensures IssuedInv(w', raw) { assert IssuedInv(w, raw); }
  }

  lemma EditsKeep(w: World, step: Step)
    requires Inv(w) && Enabled(w, step)
    requires step.Bar? || step.SetApproval? || step.EditUser? || step.Cutover?
    ensures Inv(Next(w, step))
  {
    var w' := Next(w, step);
    assert Linked(w'.store);
    forall j | j in w'.store.tokens ensures TokenInv(w', j) { assert TokenInv(w, j); }
    forall f | f in w'.store.families ensures FamilyInv(w', f) { assert FamilyInv(w, f); }
    forall raw | raw in w'.issued ensures IssuedInv(w', raw) { assert IssuedInv(w, raw); }
  }

  lemma StepKeeps(w: World, step: Step)
    requires Inv(w) && Enabled(w, step)
    ensures Inv(Next(w, step))
  {
    match step
    case Enrol(_, _, _, _, _, _, _) => EnrolKeeps(w, step);
    case Rotate(_, _, _, _, _) => RotateKeeps(w, step);
    case EndGrant(g, at) => GrantEndedKeeps(w, g, at);
    case BarFamily(f, at) => FamilyBarredKeeps(w, f, false, at);
    case Revoke(_, _) => RevokeKeeps(w, step);
    case Purge(_) => PurgeKeeps(w, step);
    case _ => EditsKeep(w, step);
  }

  lemma {:induction false} RunKeeps(w: World, steps: seq<Step>)
    requires Inv(w) && Run(w, steps)
    ensures Inv(End(w, steps))
    decreases |steps|
  {
    if steps != [] {
      StepKeeps(w, steps[0]);
      RunKeeps(Next(w, steps[0]), steps[1..]);
    }
  }

  predicate Fresh(w: World) {
    && w.store.grants == map[] && w.store.families == map[] && w.store.tokens == map[] && w.latest == map[]
    && w.issued == {} && w.exchanged == [] && w.grantIds == {} && w.jtis == {}
  }

  lemma Reached(w: World, steps: seq<Step>)
    requires Fresh(w) && Run(w, steps)
    ensures Inv(End(w, steps))
  {
    RunKeeps(w, steps);
  }

  // ---- One live token, each exchanged once ---------------------------------------------------

  /** An open family has exactly one token that could still be exchanged: the last one issued. */
  lemma ExactlyOneLiveToken(w: World, steps: seq<Step>, f: FamilyId, j: Jti)
    requires Fresh(w) && Run(w, steps)
    requires f in End(w, steps).store.families && End(w, steps).store.families[f].revokedAt.None?
    ensures f in End(w, steps).latest
    ensures var end := End(w, steps);
            (j in end.store.tokens && end.store.tokens[j].family == f && Unspent(end.store.tokens[j]))
            <==> Some(j) == end.latest[f].jti
  {
    Reached(w, steps);
    var end := End(w, steps);
    assert FamilyInv(end, f);
    var last := end.latest[f].jti.value;
    assert TokenInv(end, last);
    if j in end.store.tokens { assert TokenInv(end, j); }
  }

  /** No token is exchanged twice, whoever presents it and however often. */
  lemma ExchangedAtMostOnce(w: World, steps: seq<Step>, i: nat, k: nat)
    requires Fresh(w) && Run(w, steps)
    requires i < k < |End(w, steps).exchanged|
    ensures End(w, steps).exchanged[i] != End(w, steps).exchanged[k]
  {
    Reached(w, steps);
  }

  /** An exchange succeeds exactly when the token is its open family's latest and nothing the
      exchange depends on has been withdrawn. */
  lemma ExchangedExactly(w: World, steps: seq<Step>, raw: Raw, at: Time, allowed: bool)
    requires Fresh(w) && Run(w, steps)
    ensures Linked(End(w, steps).store)
    ensures var end := End(w, steps);
            var s := end.store;
            VerdictOn(s, raw, at, allowed) == Exchanged <==>
              && allowed && raw.expires > at && raw.generation == s.generation
              && raw.family.Some? && raw.family.value in s.families && raw.family.value in end.latest
              && end.latest[raw.family.value] == raw
              && var family := s.families[raw.family.value];
                 var grant := s.grants[family.grant];
                 && family.revokedAt.None?
                 && s.users[family.user].active && s.users[family.user].accessActive && !s.users[family.user].dumpStub
                 && grant.active && s.registrations[grant.registration] == Approved
                 && raw.jti.Some? && raw.jti.value !in s.barred
  {
    Reached(w, steps);
    var end := End(w, steps);
    var s := end.store;
    if raw.family.Some? && raw.family.value in s.families {
      assert FamilyInv(end, raw.family.value);
      if end.latest[raw.family.value] == raw { assert TokenInv(end, raw.jti.value); }
    }
    if VerdictOn(s, raw, at, allowed) == Exchanged {
      assert TokenInv(end, raw.jti.value);
    }
  }

  // ---- Authority that has ended stays ended --------------------------------------------------

  predicate FamilyEnded(w: World, f: FamilyId) {
    f in w.latest && (f in w.store.families ==> w.store.families[f].revokedAt.Some?)
  }

  predicate GrantSettled(w: World, g: GrantId) {
    g in w.grantIds && (g in w.store.grants ==> !w.store.grants[g].active)
  }

  lemma StepNeverReopens(w: World, step: Step, f: FamilyId, g: GrantId)
    requires Inv(w) && Enabled(w, step)
    ensures FamilyEnded(w, f) ==> FamilyEnded(Next(w, step), f)
    ensures GrantSettled(w, g) ==> GrantSettled(Next(w, step), g)
  {
    if step.Rotate? { RotationNeverReopens(w, step, f, g); }
  }

  lemma RotationNeverReopens(w: World, step: Step, f: FamilyId, g: GrantId)
    requires Inv(w) && Enabled(w, step) && step.Rotate?
    ensures FamilyEnded(w, f) ==> FamilyEnded(Next(w, step), f)
    ensures GrantSettled(w, g) ==> GrantSettled(Next(w, step), g)
  {}

  lemma {:induction false} NeverReopens(w: World, steps: seq<Step>, f: FamilyId, g: GrantId)
    requires Inv(w) && Run(w, steps)
    ensures Inv(End(w, steps))
    ensures FamilyEnded(w, f) ==> FamilyEnded(End(w, steps), f)
    ensures GrantSettled(w, g) ==> GrantSettled(End(w, steps), g)
    decreases |steps|
  {
    if steps != [] {
      StepKeeps(w, steps[0]);
      StepNeverReopens(w, steps[0], f, g);
      NeverReopens(Next(w, steps[0]), steps[1..], f, g);
    }
  }

  /** Nothing of the family is exchanged, and no access token of the family or grant is honoured. */
  ghost predicate Dead(w: World, f: FamilyId, g: GrantId) {
    && Linked(w.store)
    && (forall raw: Raw, at, allowed |
          VerdictOn(w.store, raw, at, allowed) == Exchanged :: raw.family != Some(f) && raw.grant != Some(g))
    && (forall g', f', u | Accepts(w.store, g', f', u) :: f' != f && g' != g)
  }

  lemma EndedIsDead(w: World, f: FamilyId, g: GrantId)
    requires Inv(w) && FamilyEnded(w, f) && GrantSettled(w, g)
    ensures Dead(w, f, g)
  {
    forall raw: Raw, at, allowed | VerdictOn(w.store, raw, at, allowed) == Exchanged
      ensures raw.family != Some(f) && raw.grant != Some(g)
    {
      assert TokenInv(w, raw.jti.value);
    }
  }

  /** Presenting any issued but no longer current token of a family ends that family and its
      grant, and no later run brings either back. */
  lemma SpentTokenEndsAuthority(w: World, steps: seq<Step>, step: Step, later: seq<Step>)
    requires Fresh(w) && Run(w, steps) && Enabled(End(w, steps), step) && step.Rotate?
    requires step.raw in End(w, steps).issued && step.raw.expires > step.at && step.raw.family.Some?
    requires step.raw.family.value in End(w, steps).latest
    requires step.raw != End(w, steps).latest[step.raw.family.value]
    requires Run(Next(End(w, steps), step), later)
    ensures step.raw.grant.Some?
    ensures Dead(End(Next(End(w, steps), step), later), step.raw.family.value, step.raw.grant.value)
  {
    Reached(w, steps);
    var before := End(w, steps);
    var after := Next(before, step);
    var f := step.raw.family.value;
    assert IssuedInv(before, step.raw);
    var g := step.raw.grant.value;
    if f in before.store.families {
      assert TokenInv(before, step.raw.jti.value);
      assert VerdictOn(before.store, step.raw, step.at, step.allowed) == Reuse;
    }
    assert FamilyEnded(after, f) && GrantSettled(after, g);
    StepKeeps(before, step);
    NeverReopens(after, later, f, g);
    EndedIsDead(End(after, later), f, g);
  }

  /** Grants issued under a registration when it is revoked are never honoured again, whatever
      status the registration is given later, and nothing they own is exchanged. */
  lemma RevokedRegistrationSettles(w: World, steps: seq<Step>, r: RegistrationId, at: Time, later: seq<Step>, g: GrantId)
    requires Fresh(w) && Run(w, steps)
    requires IssuedUnder(End(w, steps).store, r, g)
    requires Run(Next(End(w, steps), Revoke(r, at)), later)
    ensures var end := End(Next(End(w, steps), Revoke(r, at)), later);
            && Linked(end.store)
            && (forall f, u :: !Accepts(end.store, g, f, u))
            && (forall raw: Raw, t, allowed | VerdictOn(end.store, raw, t, allowed) == Exchanged :: raw.grant != Some(g))
  {
    Reached(w, steps);
    var before := End(w, steps);
    var after := Next(before, Revoke(r, at));
    StepKeeps(before, Revoke(r, at));
    assert GrantSettled(after, g);
    NeverReopens(after, later, 0, g);
    var end := End(after, later);
    forall raw: Raw, t, allowed | VerdictOn(end.store, raw, t, allowed) == Exchanged ensures raw.grant != Some(g) {
      assert TokenInv(end, raw.jti.value);
    }
  }

  /** Why settling matters: withdrawing the status alone only suspends. The same device is
      honoured, and refreshes, once the status is restored. */
  lemma StatusAloneSuspends(r: RegistrationId, u: UserId, g: GrantId, f: FamilyId, j: Jti)
    returns (w: World, before: seq<Step>, steps: seq<Step>)
    ensures Fresh(w) && Run(w, before) && !Accepts(End(w, before).store, g, f, u)
    ensures Run(w, steps) && Accepts(End(w, steps).store, g, f, u) && steps == before + [SetApproval(r, Approved)]
    ensures Linked(End(w, steps).store) && f in End(w, steps).latest
         && VerdictOn(End(w, steps).store, End(w, steps).latest[f], 0, true) == Exchanged
  {
    w := Start(map[u := User(false, true, true)], map[r := Approved], 0);
    var enrol, off, on := Enrol(r, u, g, f, j, 10, true), SetApproval(r, Withdrawn), SetApproval(r, Approved);
    before, steps := [enrol, off], [enrol, off, on];
    assert before == [enrol] + [off] && steps == before + [on];
    RunOne(w, enrol);
    RunAppend(w, [enrol], off);
    RunAppend(w, before, on);
    var enrolled := Enrolled(w.store, r, u, g, f, j, 10);
    assert End(w, steps).store == enrolled.(registrations := map[r := Approved]);
  }

  // ---- A service made of several commits ------------------------------------------------------

  /** Barring families is a run of separate commits, one a family. */
  lemma {:induction false} BarringIsARun(w: World, ending: set<FamilyId>, at: Time) returns (steps: seq<Step>)
    requires ending <= w.store.families.Keys
    ensures Run(w, steps) && End(w, steps) == w.(store := FamiliesBarred(w.store, ending, at))
    decreases |ending|
  {
    if ending == {} {
      BarNone(w.store, at);
      steps := [];
    } else {
      var f :| f in ending;
      assert ending == ending - {f} + {f};
      BarOneMore(w.store, ending - {f}, f, at);
      var front := BarringIsARun(w, ending - {f}, at);
      RunAppend(w, front, BarFamily(f, at));
      steps := front + [BarFamily(f, at)];
    }
  }

  /** Revoking grants is the run that ends each grant and then bars its families. */
  lemma {:induction false} RevokingIsARun(w: World, ending: set<GrantId>, at: Time) returns (steps: seq<Step>)
    ensures Run(w, steps) && End(w, steps) == w.(store := GrantsRevoked(w.store, ending, at))
    decreases |ending|
  {
    if ending == {} {
      BarNone(w.store, at);
      steps := [];
    } else {
      var g :| g in ending;
      assert ending == ending - {g} + {g};
      RevokeOneMore(w.store, ending - {g}, g, at);
      var front := RevokingIsARun(w, ending - {g}, at);
      RunAppend(w, front, EndGrant(g, at));
      var mid := End(w, front).store;
      RevokeOne(mid, g, at);
      var ended := front + [EndGrant(g, at)];
      var rest := BarringIsARun(End(w, ended), OpenFamilies(mid, {g}), at);
      RunConcat(w, ended, rest);
      steps := ended + rest;
    }
  }

  lemma {:induction false} RunConcat(w: World, front: seq<Step>, rest: seq<Step>)
    requires Run(w, front) && Run(End(w, front), rest)
    ensures Run(w, front + rest) && End(w, front + rest) == End(End(w, front), rest)
    decreases |front|
  {
    if front == [] {
      assert front + rest == rest;
    } else {
      RunConcat(Next(w, front[0]), front[1..], rest);
      assert (front + rest)[1..] == front[1..] + rest;
    }
  }

  lemma RunOne(w: World, step: Step)
    requires Enabled(w, step)
    ensures Run(w, [step]) && End(w, [step]) == Next(w, step)
  {
    assert [step][1..] == [];
    assert End(Next(w, step), []) == Next(w, step);
  }

  lemma RunAppend(w: World, steps: seq<Step>, last: Step)
    requires Run(w, steps) && Enabled(End(w, steps), last)
    ensures Run(w, steps + [last]) && End(w, steps + [last]) == Next(End(w, steps), last)
  {
    RunOne(End(w, steps), last);
    RunConcat(w, steps, [last]);
  }
}
