/** Every interleaving of issuing, guessing, redeeming, refreshing, revoking, transitioning,
    device activity and account edits.

    The ledger remembers what was handed out and what was typed; the services never read it. */
module ClaimRuns {
  import opened Common
  import opened ClaimSessions
  import D = DeviceFamilies
  import R = DeviceFamilyRuns

  datatype Ledger = Ledger(
    secrets: map<ClaimId, string>,     // the secret each code was printed with
    sessions: set<SessionId>,          // session identifiers are never reused
    wrong: map<ClaimId, nat>,          // wrong secrets typed while the code could still be used
    right: set<ClaimId>,               // the right secret was typed while the code could be used
    redeemedAt: map<ClaimId, Time>,
    redemptions: seq<ClaimId>,         // codes that yielded a session
    awaiting: set<ClaimId>,            // redeemed, first tokens not yet minted
    started: seq<ClaimId>,              // first tokens minted
    rotations: seq<D.Jti>)             // refresh identifiers exchanged

  datatype World = World(desk: Desk, devices: R.World, log: Ledger)

  datatype Step =
    | Issue(authorised: bool, makerspace: MakerspaceId, m: MembershipId, c: ClaimId, secret: string,
            session: SessionId, at: Time)
    | Revoke(authorised: bool, makerspace: MakerspaceId, c: ClaimId, at: Time)
    | Redeem(code: Presented, portal: Option<MakerspaceId>, at: Time)
    | Open(c: ClaimId, at: Time, allowed: bool, j: D.Jti, accessJti: D.Jti, accessExpires: int)
    | Exchange(token: Bearer, at: Time, mintAt: Time, allowed: bool, j: D.Jti, accessJti: D.Jti, accessExpires: int)
    | Transition(u: UserId, admitted: set<MakerspaceId>, hooks: seq<Hook>, failed: bool, password: bool, at: Time)
    | Device(step: R.Step)
    | EditPerson(u: UserId, person: Person)
    | EditMembership(m: MembershipId, membership: Membership)

  predicate Enabled(w: World, step: Step) {
    match step
    case Issue(_, _, _, c, _, session, _) => c !in w.log.secrets && session !in w.log.sessions
    case Open(c, _, _, _, _, _) => c in w.log.awaiting
    case Device(inner) => R.Enabled(w.devices, inner)
    case _ => true
  }

  function Typed(l: Ledger, code: Presented, redemption: Redemption, at: Time): Ledger {
    if code.Garbled? || redemption.Unknown? || redemption.Used? then l else Noted(l, code.claim, redemption, at)
  }

  function Noted(l: Ledger, c: ClaimId, redemption: Redemption, at: Time): Ledger {
    match redemption
    case Mismatch => l.(wrong := l.wrong[c := (if c in l.wrong then l.wrong[c] else 0) + 1])
    case Burnt => l.(right := l.right + {c})
    case Accepted => l.(right := l.right + {c}, redeemedAt := l.redeemedAt[c := at],
                        redemptions := l.redemptions + [c], awaiting := l.awaiting + {c})
    case _ => l
  }

  function Next(w: World, step: Step): World
    requires Enabled(w, step)
  {
    var k, d := w.desk, w.devices.store;
    match step
    case Issue(authorised, makerspace, m, c, secret, session, at) =>
      if !IssueOutcomeFor(k, d, authorised, makerspace, m).Issued? then w
      else w.(desk := IssuedDesk(k, m, c, secret, session, at),
              log := Printed(w.log, c, secret, session))
    case Revoke(authorised, makerspace, c, at) => w.(desk := RevokedDesk(k, authorised, makerspace, c, at))
    case Redeem(code, makerspace, at) =>
      w.(desk := RedeemedDesk(k, d, code, makerspace, at),
         log := Typed(w.log, code, RedemptionOf(k, d, code, makerspace, at), at))
    case Open(c, at, allowed, j, accessJti, accessExpires) =>
      var waited := w.log.(awaiting := w.log.awaiting - {c});
      if !Mintable(k, c, at, allowed) then w.(log := waited)
      else w.(desk := MintedDesk(k, d, c, j, accessJti, accessExpires), log := waited.(started := waited.started + [c]))
    case Exchange(token, at, mintAt, allowed, j, accessJti, accessExpires) =>
      if RefreshVerdictOn(k, d, token, at, mintAt, allowed) != Rotated then w
      else w.(desk := MintedDesk(k, d, SessionOf(k, d, token, at).value, j, accessJti, accessExpires),
              devices := R.Next(w.devices, R.Bar(token.jti)),
              log := w.log.(rotations := w.log.rotations + [token.jti]))
    case Transition(u, admitted, hooks, failed, password, at) =>
      if !TransitionOutcomeFor(k, u, admitted, failed).Transitioned? then w
      else w.(desk := TransitionedDesk(k, u, hooks, password, at),
              devices := w.devices.(store := D.AccountRevoked(d, u, OutstandingOf(k, u), at)))
    case Device(inner) => w.(devices := R.Next(w.devices, inner))
    case EditPerson(u, person) => w.(desk := k.(people := k.people[u := person]))
    case EditMembership(m, membership) => w.(desk := k.(memberships := k.memberships[m := membership]))
  }

  predicate Run(w: World, steps: seq<Step>)
    decreases |steps|
  {
    steps == [] || (Enabled(w, steps[0]) && Run(Next(w, steps[0]), steps[1..]))
  }

  function End(w: World, steps: seq<Step>): World
    requires Run(w, steps)
    decreases |steps|
  {
    if steps == [] then w else End(Next(w, steps[0]), steps[1..])
  }

  predicate Fresh(w: World) {
    && R.Fresh(w.devices) && w.devices.store.barred == {}
    && w.desk.claims == map[] && w.desk.outstanding == map[] && w.desk.signed == {}
    && w.log == Ledger(map[], {}, map[], {}, map[], [], {}, [], [])
  }

  // ---- The invariant -----------------------------------------------------------------------

  ghost predicate Once<T>(s: seq<T>) {
    forall i, j | 0 <= i < j < |s| :: s[i] != s[j]
  }

  /** What the ledger says of one code is what its row says. */
  ghost predicate ClaimInv(l: Ledger, ttl: Time, c: ClaimId, claim: Claim) {
    && c in l.secrets && claim.digest == CodeDigest(c, l.secrets[c]) && claim.session in l.sessions
    && c in l.wrong && claim.failed == l.wrong[c] && l.wrong[c] <= MAX_FAILED_ATTEMPTS
    && (claim.consumedAt.Some? <==> c in l.right || l.wrong[c] == MAX_FAILED_ATTEMPTS)
    && (c in l.right ==> l.wrong[c] < MAX_FAILED_ATTEMPTS)
    && (c in l.redeemedAt ==> c in l.right)
    && claim.deadline == (if c in l.redeemedAt then Some(l.redeemedAt[c] + ttl) else None)
  }

  ghost predicate OneStanding(claims: map<ClaimId, Claim>) {
    forall a, b | a in claims && b in claims && claims[a].membership == claims[b].membership
                  && claims[a].revokedAt.None? && claims[b].revokedAt.None? :: a == b
  }

  ghost predicate OwnSessions(claims: map<ClaimId, Claim>) {
    forall a, b | a in claims && b in claims && claims[a].session == claims[b].session :: a == b
  }

  ghost predicate LogInv(l: Ledger) {
    && (forall c | c in l.redemptions :: c in l.redeemedAt) && Once(l.redemptions)
    && (forall c | c in l.redeemedAt :: c in l.secrets)
    && (forall c | c in l.awaiting :: c in l.redeemedAt && c !in l.started)
    && (forall c | c in l.started :: c in l.redeemedAt) && Once(l.started)
    && (forall c | c in l.right :: c in l.secrets)
  }

  ghost predicate ClaimsInv(claims: map<ClaimId, Claim>, ttl: Time, l: Ledger) {
    && (forall c | c in claims :: ClaimInv(l, ttl, c, claims[c]))
    && (forall c | c in l.secrets :: c in claims)
    && OneStanding(claims) && OwnSessions(claims)
    && LogInv(l)
  }

  ghost predicate RotationInv(l: Ledger, d: D.Store) {
    && (forall j | j in l.rotations :: j in d.barred)
    && Once(l.rotations)
  }

  ghost predicate Inv(w: World) {
    && ClaimsInv(w.desk.claims, w.desk.sessionTtl, w.log)
    && R.Inv(w.devices)
    && RotationInv(w.log, w.devices.store)
  }

  function Printed(l: Ledger, c: ClaimId, secret: string, session: SessionId): Ledger {
    l.(secrets := l.secrets[c := secret], sessions := l.sessions + {session}, wrong := l.wrong[c := 0])
  }

  lemma AddKeeps(prior: map<ClaimId, Claim>, ttl: Time, l: Ledger, c: ClaimId, claim: Claim, secret: string)
    requires ClaimsInv(prior, ttl, l) && c !in l.secrets && claim.session !in l.sessions
    requires StandingClaims(prior, claim.membership) == {}
    requires claim == Claim(claim.membership, CodeDigest(c, secret), claim.expiresAt, None, None, 0, None, claim.session)
    ensures ClaimsInv(prior[c := claim], ttl, Printed(l, c, secret, claim.session))
  {
    var l', claims := Printed(l, c, secret, claim.session), prior[c := claim];
    forall b | b in claims ensures ClaimInv(l', ttl, b, claims[b]) {
      if b != c { assert ClaimInv(l, ttl, b, prior[b]); }
    }
    AddStanding(prior, ttl, l, c, claim);
  }

  lemma AddStanding(prior: map<ClaimId, Claim>, ttl: Time, l: Ledger, c: ClaimId, claim: Claim)
    requires ClaimsInv(prior, ttl, l) && c !in prior && claim.session !in l.sessions
    requires StandingClaims(prior, claim.membership) == {}
    ensures OneStanding(prior[c := claim]) && OwnSessions(prior[c := claim])
  {
    forall b | b in prior
      ensures prior[b].session != claim.session
      ensures prior[b].membership == claim.membership ==> prior[b].revokedAt.Some?
    {
      assert ClaimInv(l, ttl, b, prior[b]);
      assert b !in StandingClaims(prior, claim.membership);
    }
  }

  lemma IssueKeeps(k: Desk, l: Ledger, m: MembershipId, c: ClaimId, secret: string, session: SessionId, at: Time)
    requires ClaimsInv(k.claims, k.sessionTtl, l) && c !in l.secrets && session !in l.sessions
    ensures ClaimsInv(IssuedDesk(k, m, c, secret, session, at).claims, k.sessionTtl, Printed(l, c, secret, session))
  {
    var prior := Revoked(k.claims, StandingClaims(k.claims, m), at);
    RevokingKeeps(k.claims, k.sessionTtl, l, StandingClaims(k.claims, m), at);
    assert StandingClaims(prior, m) == {};
    AddKeeps(prior, k.sessionTtl, l, c, IssuedDesk(k, m, c, secret, session, at).claims[c], secret);
  }

  lemma RevokingKeeps(claims: map<ClaimId, Claim>, ttl: Time, l: Ledger, ending: set<ClaimId>, at: Time)
    requires ClaimsInv(claims, ttl, l)
    ensures ClaimsInv(Revoked(claims, ending, at), ttl, l)
  {
    var claims' := Revoked(claims, ending, at);
    forall c | c in claims' ensures ClaimInv(l, ttl, c, claims'[c]) {
      assert ClaimInv(l, ttl, c, claims[c]);
    }
  }

  /** The typed code's own row. */
  lemma RedeemCell(l: Ledger, ttl: Time, c: ClaimId, claim: Claim, redemption: Redemption, at: Time)
    requires ClaimInv(l, ttl, c, claim) && claim.consumedAt.None?
    requires redemption.Mismatch? || redemption.Burnt? || redemption.Accepted?
    ensures ClaimInv(Noted(l, c, redemption, at), ttl, c, RedeemedClaim(claim, redemption, ttl, at))
  {}

  lemma RedeemOther(l: Ledger, ttl: Time, c: ClaimId, redemption: Redemption, at: Time, b: ClaimId, claim: Claim)
    requires ClaimInv(l, ttl, b, claim) && b != c
    ensures ClaimInv(Noted(l, c, redemption, at), ttl, b, claim)
  {}

  lemma RedeemLog(l: Ledger, c: ClaimId, redemption: Redemption, at: Time)
    requires LogInv(l) && c in l.secrets && c !in l.redeemedAt
    ensures LogInv(Noted(l, c, redemption, at)) && Noted(l, c, redemption, at).secrets == l.secrets
    ensures Noted(l, c, redemption, at).rotations == l.rotations
  {}

  lemma RedeemKeeps(claims: map<ClaimId, Claim>, ttl: Time, l: Ledger, c: ClaimId, redemption: Redemption, at: Time)
    requires ClaimsInv(claims, ttl, l) && c in claims && claims[c].consumedAt.None?
    requires redemption.Mismatch? || redemption.Burnt? || redemption.Accepted?
    ensures ClaimsInv(claims[c := RedeemedClaim(claims[c], redemption, ttl, at)], ttl, Noted(l, c, redemption, at))
  {
    assert ClaimInv(l, ttl, c, claims[c]);
    RedeemCell(l, ttl, c, claims[c], redemption, at);
    RedeemLog(l, c, redemption, at);
    forall b | b in claims && b != c ensures ClaimInv(Noted(l, c, redemption, at), ttl, b, claims[b]) {
      RedeemOther(l, ttl, c, redemption, at, b, claims[b]);
    }
  }

  lemma OpenKeeps(claims: map<ClaimId, Claim>, ttl: Time, l: Ledger, c: ClaimId, minted: bool)
    requires ClaimsInv(claims, ttl, l) && c in l.awaiting
    ensures ClaimsInv(claims, ttl, l.(awaiting := l.awaiting - {c}, started := if minted then l.started + [c] else l.started))
  {
    var l' := l.(awaiting := l.awaiting - {c}, started := if minted then l.started + [c] else l.started);
    forall b | b in claims ensures ClaimInv(l', ttl, b, claims[b]) { assert ClaimInv(l, ttl, b, claims[b]); }
  }

  lemma ExchangeKeeps(w: World, j: D.Jti)
    requires Inv(w) && j !in w.devices.store.barred
    ensures var l' := w.log.(rotations := w.log.rotations + [j]);
            && ClaimsInv(w.desk.claims, w.desk.sessionTtl, l')
            && R.Inv(R.Next(w.devices, R.Bar(j))) && RotationInv(l', R.Next(w.devices, R.Bar(j)).store)
  {
    var l' := w.log.(rotations := w.log.rotations + [j]);
    R.StepKeeps(w.devices, R.Bar(j));
    forall b | b in w.desk.claims ensures ClaimInv(l', w.desk.sessionTtl, b, w.desk.claims[b]) {
      assert ClaimInv(w.log, w.desk.sessionTtl, b, w.desk.claims[b]);
    }
  }

  /** Ending an account's device authority is a run of device steps but for the blacklist. */
  lemma AccountRevokedKeeps(dw: R.World, u: UserId, others: set<D.Jti>, at: Time, f: D.FamilyId, g: D.GrantId)
    returns (dw': R.World)
    requires R.Inv(dw)
    ensures dw' == dw.(store := D.AccountRevoked(dw.store, u, others, at))
    ensures R.Inv(dw')
    ensures R.FamilyEnded(dw, f) ==> R.FamilyEnded(dw', f)
    ensures R.GrantSettled(dw, g) ==> R.GrantSettled(dw', g)
    ensures g in dw.store.grants && dw.store.grants[g].user == u ==> R.GrantSettled(dw', g)
    ensures dw.store.barred <= dw'.store.barred
  {
    var barred := dw.store.barred + D.DeviceTokensOf(dw.store, u) + others;
    var mid := dw.(store := dw.store.(barred := barred));
    BarredKeeps(dw, barred);
    assert barred == dw.store.barred + D.DeviceTokensOf(dw.store, u) + others;
    var steps := R.RevokingIsARun(mid, D.ActiveGrantsOf(dw.store, u), at);
    R.NeverReopens(mid, steps, f, g);
    dw' := R.End(mid, steps);
  }

  lemma BarredKeeps(dw: R.World, barred: set<D.Jti>)
    requires R.Inv(dw)
    ensures R.Inv(dw.(store := dw.store.(barred := barred)))
  {
    var dw' := dw.(store := dw.store.(barred := barred));
    assert D.Linked(dw'.store);
    forall j | j in dw'.store.tokens ensures R.TokenInv(dw', j) { assert R.TokenInv(dw, j); }
    forall f | f in dw'.store.families ensures R.FamilyInv(dw', f) { assert R.FamilyInv(dw, f); }
    forall raw | raw in dw'.issued ensures R.IssuedInv(dw', raw) { assert R.IssuedInv(dw, raw); }
  }

  lemma BarredGrows(dw: R.World, step: R.Step)
    requires R.Enabled(dw, step)
    ensures dw.store.barred <= R.Next(dw, step).store.barred
  {}

  lemma DeskKeeps(w: World, step: Step)
    requires Inv(w) && Enabled(w, step) && (step.Issue? || step.Revoke? || step.Redeem? || step.Open?)
    ensures Inv(Next(w, step))
  {
    var (k, d) := (w.desk, w.devices.store);
    match step
    case Issue(authorised, makerspace, m, c, secret, session, at) =>
      IssueKeeps(k, w.log, m, c, secret, session, at);
    case Revoke(authorised, makerspace, c, at) =>
      RevokingKeeps(k.claims, k.sessionTtl, w.log, {c}, at);
      assert c in k.claims ==> k.claims[c := k.claims[c].(revokedAt := Some(at))] == Revoked(k.claims, {c}, at);
    case Redeem(code, portal, at) =>
      var redemption := RedemptionOf(k, d, code, portal, at);
      if !redemption.Unknown? && !redemption.Used? {
        RedeemKeeps(k.claims, k.sessionTtl, w.log, code.claim, redemption, at);
        assert ClaimInv(w.log, k.sessionTtl, code.claim, k.claims[code.claim]);
        RedeemLog(w.log, code.claim, redemption, at);
      }
    case Open(c, at, allowed, _, _, _) =>
      OpenKeeps(k.claims, k.sessionTtl, w.log, c, Mintable(k, c, at, allowed));
  }

  lemma BearerKeeps(w: World, step: Step)
    requires Inv(w) && Enabled(w, step)
    requires step.Exchange? || step.Transition?
    ensures Inv(Next(w, step))
  {
    var (k, d) := (w.desk, w.devices.store);
    match step
    case Exchange(token, at, mintAt, allowed, _, _, _) =>
      if RefreshVerdictOn(k, d, token, at, mintAt, allowed) == Rotated { ExchangeKeeps(w, token.jti); }
    case Transition(u, admitted, _, failed, _, at) =>
      if TransitionOutcomeFor(k, u, admitted, failed).Transitioned? {
        RevokingKeeps(k.claims, k.sessionTtl, w.log, StandingClaimsOf(k, u), at);
        var dw' := AccountRevokedKeeps(w.devices, u, OutstandingOf(k, u), at, 0, 0);
      }
  }

  lemma StepKeeps(w: World, step: Step)
    requires Inv(w) && Enabled(w, step)
    ensures Inv(Next(w, step)) && Next(w, step).desk.sessionTtl == w.desk.sessionTtl
  {
    match step
    case Exchange(_, _, _, _, _, _, _) => BearerKeeps(w, step);
    case Transition(_, _, _, _, _, _) => BearerKeeps(w, step);
    case Device(inner) =>
      R.StepKeeps(w.devices, inner);
      BarredGrows(w.devices, inner);
    case EditPerson(_, _) =>
    case EditMembership(_, _) =>
    case _ => DeskKeeps(w, step);
  }

  lemma {:induction false} RunKeeps(w: World, steps: seq<Step>)
    requires Inv(w) && Run(w, steps)
    ensures Inv(End(w, steps)) && End(w, steps).desk.sessionTtl == w.desk.sessionTtl
    decreases |steps|
  {
    if steps != [] {
      StepKeeps(w, steps[0]);
      RunKeeps(Next(w, steps[0]), steps[1..]);
    }
  }

  lemma Reached(w: World, steps: seq<Step>)
    requires Fresh(w) && Run(w, steps)
    ensures Inv(End(w, steps)) && End(w, steps).desk.sessionTtl == w.desk.sessionTtl
  {
    RunKeeps(w, steps);
  }

  // ---- Codes -------------------------------------------------------------------------------

  /** One current credential a membership. */
  lemma OneStandingClaimPerMembership(w: World, steps: seq<Step>, a: ClaimId, b: ClaimId)
    requires Fresh(w) && Run(w, steps)
    requires var claims := End(w, steps).desk.claims;
             && a in claims && b in claims && claims[a].membership == claims[b].membership
             && claims[a].revokedAt.None? && claims[b].revokedAt.None?
    ensures a == b
  {
    Reached(w, steps);
  }

  /** A code opens a session at most once. */
  lemma CodeYieldsOneSession(w: World, steps: seq<Step>, i: nat, j: nat)
    requires Fresh(w) && Run(w, steps) && i < j
    ensures j < |End(w, steps).log.redemptions| ==> End(w, steps).log.redemptions[i] != End(w, steps).log.redemptions[j]
    ensures j < |End(w, steps).log.started| ==> End(w, steps).log.started[i] != End(w, steps).log.started[j]
  {
    Reached(w, steps);
  }

  /** A walk-in in good standing without any credential of their own, field by field. */
  predicate Visitor(k: Desk, d: D.Store, u: UserId) {
    && u in k.people && u in d.users
    && d.users[u].active && d.users[u].accessActive && !d.users[u].dumpStub
    && k.people[u] == Person(true, false, false, false, false, false)
    && forall g | g in d.grants && d.grants[g].user == u :: !d.grants[g].active
  }

  lemma VisitorExactly(k: Desk, d: D.Store, u: UserId)
    ensures CredentialFree(k, d, u) <==> Visitor(k, d, u)
  {
    assert D.ActiveGrantsOf(d, u) == {} <==> forall g | g in d.grants && d.grants[g].user == u :: !d.grants[g].active by {
      if forall g | g in d.grants && d.grants[g].user == u :: !d.grants[g].active {
        assert forall g :: g !in D.ActiveGrantsOf(d, u);
      } else {
        var g :| g in d.grants && d.grants[g].user == u && d.grants[g].active;
        assert g in D.ActiveGrantsOf(d, u);
      }
    }
  }

  /** Redemption succeeds exactly on the printed secret, the first time it is typed, after fewer
      than five wrong ones, while the code stands and its holder is still an eligible walk-in. */
  lemma RedeemedExactly(w: World, steps: seq<Step>, code: Presented, makerspace: Option<MakerspaceId>, at: Time)
    requires Fresh(w) && Run(w, steps)
    ensures var end := End(w, steps);
            var (k, l) := (end.desk, end.log);
            RedemptionOf(k, end.devices.store, code, makerspace, at) == Accepted <==>
              && code.Code? && code.claim in l.secrets && code.secret == l.secrets[code.claim]
              && code.claim !in l.right && code.claim in l.wrong && l.wrong[code.claim] < MAX_FAILED_ATTEMPTS
              && code.claim in k.claims
              && var claim := k.claims[code.claim];
                 && claim.revokedAt.None? && at < claim.expiresAt
                 && claim.membership in k.memberships
                 && (makerspace.Some? ==> makerspace.value == k.memberships[claim.membership].makerspace)
                 && k.memberships[claim.membership].active
                 && Visitor(k, end.devices.store, k.memberships[claim.membership].user)
  {
    Reached(w, steps);
    var end := End(w, steps);
    if code.Code? && code.claim in end.desk.claims {
      var claim := end.desk.claims[code.claim];
      assert ClaimInv(end.log, end.desk.sessionTtl, code.claim, claim);
      if claim.membership in end.desk.memberships {
        VisitorExactly(end.desk, end.devices.store, end.desk.memberships[claim.membership].user);
      }
    }
  }

  /** A refresh identifier is exchanged at most once. */
  lemma RefreshExchangedOnce(w: World, steps: seq<Step>, i: nat, j: nat)
    requires Fresh(w) && Run(w, steps) && i < j < |End(w, steps).log.rotations|
    ensures End(w, steps).log.rotations[i] != End(w, steps).log.rotations[j]
  {
    Reached(w, steps);
  }

  // ---- Sessions ----------------------------------------------------------------------------

  /** A bearer of any kind is honoured at some instant. */
  predicate Honoured(w: World, token: Bearer, at: Time) {
    SessionOf(w.desk, w.devices.store, token, at).Some?
  }

  /** Every honoured bearer, however many refreshes it is away from the code, belongs to a
      redeemed code and is within the session's lifetime counted from the redemption. */
  lemma NoChainOutlivesTheSession(w: World, steps: seq<Step>, token: Bearer, at: Time)
    requires Fresh(w) && Run(w, steps) && Honoured(End(w, steps), token, at)
    ensures var end := End(w, steps);
            var c := SessionOf(end.desk, end.devices.store, token, at).value;
            c in end.log.redeemedAt && at < end.log.redeemedAt[c] + w.desk.sessionTtl
  {
    Reached(w, steps);
    var end := End(w, steps);
    var c := SessionOf(end.desk, end.devices.store, token, at).value;
    assert ClaimInv(end.log, end.desk.sessionTtl, c, end.desk.claims[c]);
  }

  predicate SessionDead(w: World, session: SessionId) {
    && session in w.log.sessions
    && forall c | c in w.desk.claims && w.desk.claims[c].session == session :: w.desk.claims[c].revokedAt.Some?
  }

  /** Rows keep their session and stay revoked; a new row has a session of its own. */
  ghost predicate Inherits(claims: map<ClaimId, Claim>, claims': map<ClaimId, Claim>, sessions: set<SessionId>) {
    forall c | c in claims' ::
      if c in claims then claims'[c].session == claims[c].session && (claims[c].revokedAt.Some? ==> claims'[c].revokedAt.Some?)
      else claims'[c].session !in sessions
  }

  lemma RedeemInherits(k: Desk, d: D.Store, code: Presented, portal: Option<MakerspaceId>, at: Time, sessions: set<SessionId>)
    ensures Inherits(k.claims, RedeemedDesk(k, d, code, portal, at).claims, sessions)
  {}

  lemma RevokedInherits(claims: map<ClaimId, Claim>, ending: set<ClaimId>, at: Time, sessions: set<SessionId>)
    ensures Inherits(claims, Revoked(claims, ending, at), sessions)
  {}

  lemma StepInherits(w: World, step: Step)
    requires Inv(w) && Enabled(w, step)
    ensures Inherits(w.desk.claims, Next(w, step).desk.claims, w.log.sessions)
    ensures w.log.sessions <= Next(w, step).log.sessions
  {
    var (k, l) := (w.desk, w.log);
    match step
    case Issue(_, _, m, _, _, _, at) => RevokedInherits(k.claims, StandingClaims(k.claims, m), at, l.sessions);
    case Redeem(code, portal, at) => RedeemInherits(k, w.devices.store, code, portal, at, l.sessions);
    case Transition(u, _, _, _, _, at) => RevokedInherits(k.claims, StandingClaimsOf(k, u), at, l.sessions);
    case Revoke(_, _, _, _) =>
    case Open(_, _, _, _, _, _) => ClaimsUntouched(w, step);
    case _ => ClaimsUntouched(w, step);
  }

  lemma ClaimsUntouched(w: World, step: Step)
    requires Enabled(w, step) && (step.Open? || step.Exchange? || step.Device? || step.EditPerson? || step.EditMembership?)
    ensures Next(w, step).desk.claims == w.desk.claims && Next(w, step).log.sessions == w.log.sessions
  {
    match step
    case Open(_, _, _, _, _, _) => assert Next(w, step).desk.claims == w.desk.claims;
    case Exchange(_, _, _, _, _, _, _) => assert Next(w, step).desk.claims == w.desk.claims;
    case _ =>
  }

  lemma StepSettles(w: World, step: Step, g: D.GrantId)
    requires Inv(w) && Enabled(w, step)
    ensures R.GrantSettled(w.devices, g) ==> R.GrantSettled(Next(w, step).devices, g)
  {
    match step
    case Transition(u, admitted, _, failed, _, at) =>
      if TransitionOutcomeFor(w.desk, u, admitted, failed).Transitioned? {
        var dw' := AccountRevokedKeeps(w.devices, u, OutstandingOf(w.desk, u), at, 0, g);
      }
    case Device(inner) => R.StepNeverReopens(w.devices, inner, 0, g);
    case _ =>
  }

  lemma {:induction false} NeverRevives(w: World, steps: seq<Step>, session: SessionId, g: D.GrantId)
    requires Inv(w) && Run(w, steps)
    ensures Inv(End(w, steps))
    ensures SessionDead(w, session) ==> SessionDead(End(w, steps), session)
    ensures R.GrantSettled(w.devices, g) ==> R.GrantSettled(End(w, steps).devices, g)
    decreases |steps|
  {
    if steps != [] {
      StepKeeps(w, steps[0]);
      StepInherits(w, steps[0]);
      StepSettles(w, steps[0], g);
      NeverRevives(Next(w, steps[0]), steps[1..], session, g);
    }
  }

  /** Re-issuing a code ends the session the previous one opened, for good. */
  lemma ReissueEndsSession(w: World, steps: seq<Step>, step: Step, later: seq<Step>, prior: ClaimId, token: Bearer, at: Time)
    requires Fresh(w) && Run(w, steps) && step.Issue? && Enabled(End(w, steps), step)
    requires IssueOutcomeFor(End(w, steps).desk, End(w, steps).devices.store, step.authorised, step.makerspace, step.m).Issued?
    requires prior in End(w, steps).desk.claims && End(w, steps).desk.claims[prior].membership == step.m
    requires token.session == End(w, steps).desk.claims[prior].session
    requires Run(Next(End(w, steps), step), later)
    ensures !Honoured(End(Next(End(w, steps), step), later), token, at)
  {
    Reached(w, steps);
    var before := End(w, steps);
    StepKeeps(before, step);
    assert ClaimInv(before.log, before.desk.sessionTtl, prior, before.desk.claims[prior]);
    assert SessionDead(Next(before, step), token.session);
    NeverRevives(Next(before, step), later, token.session, 0);
  }

  /** A transition of `u` that commits with the claim hook registered. */
  predicate Transitions(w: World, step: Step) {
    && step.Transition? && ClaimState in step.hooks
    && TransitionOutcomeFor(w.desk, step.u, step.admitted, step.failed).Transitioned?
  }

  predicate OwnedBy(k: Desk, c: ClaimId, u: UserId) {
    && c in k.claims && k.claims[c].membership in k.memberships
    && k.memberships[k.claims[c].membership].user == u
  }

  lemma TransitionKillsSessions(w: World, step: Step, c: ClaimId)
    requires Inv(w) && Transitions(w, step) && OwnedBy(w.desk, c, step.u)
    ensures Inv(Next(w, step)) && SessionDead(Next(w, step), w.desk.claims[c].session)
  {
    StepKeeps(w, step);
    assert ClaimInv(w.log, w.desk.sessionTtl, c, w.desk.claims[c]);
  }

  lemma TransitionSettlesGrants(w: World, step: Step, g: D.GrantId)
    requires Inv(w) && Transitions(w, step)
    requires g in w.devices.store.grants && w.devices.store.grants[g].user == step.u
    ensures Inv(Next(w, step)) && R.GrantSettled(Next(w, step).devices, g)
  {
    StepKeeps(w, step);
    var dw' := AccountRevokedKeeps(w.devices, step.u, OutstandingOf(w.desk, step.u), step.at, 0, g);
  }

  /** Once a transition commits, no bearer of any session the person ever had is honoured again. */
  lemma TransitionEndsEverySession(w: World, steps: seq<Step>, step: Step, later: seq<Step>,
                                   c: ClaimId, token: Bearer, at: Time)
    requires Fresh(w) && Run(w, steps) && Transitions(End(w, steps), step)
    requires Run(Next(End(w, steps), step), later)
    requires OwnedBy(End(w, steps).desk, c, step.u) && token.session == End(w, steps).desk.claims[c].session
    ensures !Honoured(End(Next(End(w, steps), step), later), token, at)
  {
    Reached(w, steps);
    TransitionKillsSessions(End(w, steps), step, c);
    NeverRevives(Next(End(w, steps), step), later, token.session, 0);
  }

  /** Nor is any device grant the person ever had. */
  lemma TransitionEndsEveryGrant(w: World, steps: seq<Step>, step: Step, later: seq<Step>, g: D.GrantId)
    requires Fresh(w) && Run(w, steps) && Transitions(End(w, steps), step)
    requires Run(Next(End(w, steps), step), later)
    requires g in End(w, steps).devices.store.grants && End(w, steps).devices.store.grants[g].user == step.u
    ensures forall f, u :: !D.Accepts(End(Next(End(w, steps), step), later).devices.store, g, f, u)
  {
    Reached(w, steps);
    TransitionSettlesGrants(End(w, steps), step, g);
    NeverRevives(Next(End(w, steps), step), later, 0, g);
  }
}
