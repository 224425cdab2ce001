/** What the claim services do for people, over every run of ClaimRuns: who gets a code and for how
    long, what ends it, whose bearers are honoured, and what a transition makes of a walk-in. */
module ClaimOutcomes {
  import opened Common
  import opened ClaimSessions
  import opened ClaimRuns
  import D = DeviceFamilies
  import R = DeviceFamilyRuns

  // ---- Codes -------------------------------------------------------------------------------

  /** A code is minted exactly under authority, for an active membership of that makerspace whose
      holder is a visitor; it is then the membership's only standing one, for its whole lifetime. */
  lemma IssuedExactly(w: World, step: Step)
    requires Inv(w) && step.Issue? && Enabled(w, step)
    ensures var (k, k') := (w.desk, Next(w, step).desk);
            && (step.c in k'.claims <==>
                  && step.authorised && step.m in k.memberships && k.memberships[step.m].active
                  && k.memberships[step.m].makerspace == step.makerspace
                  && Visitor(k, w.devices.store, k.memberships[step.m].user))
            && (step.c !in k'.claims ==> Next(w, step) == w)
            && (step.c in k'.claims ==>
                  && k'.claims[step.c].membership == step.m && k'.claims[step.c].digest == CodeDigest(step.c, step.secret)
                  && k'.claims[step.c].revokedAt.None? && k'.claims[step.c].consumedAt.None?
                  && k'.claims[step.c].expiresAt == step.at + k.codeTtl
                  && forall c | c in k'.claims && k'.claims[c].membership == step.m && c != step.c :: k'.claims[c].revokedAt.Some?)
  {
    UnprintedIsFree(w, step.c);
    if step.m in w.desk.memberships { VisitorExactly(w.desk, w.devices.store, w.desk.memberships[step.m].user); }
    var prior := Revoked(w.desk.claims, StandingClaims(w.desk.claims, step.m), step.at);
    forall c | c in prior && prior[c].membership == step.m ensures prior[c].revokedAt.Some? {
      assert c in w.desk.claims && w.desk.claims[c].membership == step.m;
    }
  }

  lemma UnprintedIsFree(w: World, c: ClaimId)
    requires Inv(w) && c !in w.log.secrets
    ensures c !in w.desk.claims
  {
    assert c in w.desk.claims ==> ClaimInv(w.log, w.desk.sessionTtl, c, w.desk.claims[c]);
  }

  /** A row's membership and lifetime never change, nor do the instants of its consumption, of its
      session's end and of its revocation once they are set. */
  predicate SameTerms(claims: map<ClaimId, Claim>, claims': map<ClaimId, Claim>, c: ClaimId) {
    c in claims ==>
      && c in claims' && claims'[c].membership == claims[c].membership && claims'[c].expiresAt == claims[c].expiresAt
      && (claims[c].revokedAt.Some? ==> claims'[c].revokedAt == claims[c].revokedAt)
      && (claims[c].consumedAt.Some? ==> claims'[c].consumedAt == claims[c].consumedAt)
      && (claims[c].deadline.Some? ==> claims'[c].deadline == claims[c].deadline)
  }

  lemma StepKeepsTerms(w: World, step: Step, c: ClaimId)
    requires Inv(w) && Enabled(w, step)
    ensures SameTerms(w.desk.claims, Next(w, step).desk.claims, c)
  {
    match step
    case Issue(_, _, m, c', secret, session, at) =>
      UnprintedIsFree(w, c');
      assert SameTerms(w.desk.claims, IssuedDesk(w.desk, m, c', secret, session, at).claims, c);
    case Revoke(_, _, _, _) => EditsKeepTerms(w, step, c);
    case Redeem(_, _, _) => EditsKeepTerms(w, step, c);
    case Transition(_, _, _, _, _, _) => EditsKeepTerms(w, step, c);
    case _ => ClaimsUntouched(w, step);
  }

  lemma EditsKeepTerms(w: World, step: Step, c: ClaimId)
    requires Inv(w) && Enabled(w, step) && (step.Revoke? || step.Redeem? || step.Transition?)
    ensures SameTerms(w.desk.claims, Next(w, step).desk.claims, c)
  {
    if step.Redeem? {
      assert c in w.desk.claims ==> ClaimInv(w.log, w.desk.sessionTtl, c, w.desk.claims[c]);
      RedeemKeepsTerms(w.desk, w.devices.store, step.code, step.portal, step.at, c);
    } else {
      RevokingKeepsTerms(w, step, c);
    }
  }

  lemma RedeemKeepsTerms(k: Desk, d: D.Store, code: Presented, portal: Option<MakerspaceId>, at: Time, c: ClaimId)
    requires c in k.claims && k.claims[c].deadline.Some? ==> k.claims[c].consumedAt.Some?
    ensures SameTerms(k.claims, RedeemedDesk(k, d, code, portal, at).claims, c)
  {}

  lemma RevokingKeepsTerms(w: World, step: Step, c: ClaimId)
    requires Enabled(w, step) && (step.Revoke? || step.Transition?)
    ensures SameTerms(w.desk.claims, Next(w, step).desk.claims, c)
  {}

  /** Along every run the terms of a code stay as they were, so a repeated revocation keeps the first
      instant. */
  lemma {:induction false} TermsKept(w: World, steps: seq<Step>, c: ClaimId)
    requires Inv(w) && Run(w, steps)
    ensures SameTerms(w.desk.claims, End(w, steps).desk.claims, c)
    decreases |steps|
  {
    if steps != [] {
      StepKeeps(w, steps[0]);
      StepKeepsTerms(w, steps[0], c);
      TermsKept(Next(w, steps[0]), steps[1..], c);
    }
  }

  /** Whatever happens after it was minted, a code is redeemed only within its lifetime, for the
      membership it was minted for. */
  lemma CodeLifetime(w: World, before: seq<Step>, step: Step, after: seq<Step>, code: Presented, portal: Option<MakerspaceId>, at: Time)
    requires Fresh(w) && Run(w, before) && step.Issue? && Enabled(End(w, before), step)
    requires Run(Next(End(w, before), step), after)
    requires step.c in Next(End(w, before), step).desk.claims
    requires code.Code? && code.claim == step.c
    ensures var end := End(Next(End(w, before), step), after);
            && step.c in end.desk.claims && end.desk.claims[step.c].membership == step.m
            && end.desk.claims[step.c].expiresAt == step.at + End(w, before).desk.codeTtl
            && (RedemptionOf(end.desk, end.devices.store, code, portal, at) == Accepted ==>
                  at < step.at + End(w, before).desk.codeTtl)
  {
    Reached(w, before);
    var mid := End(w, before);
    IssuedExactly(mid, step);
    StepKeeps(mid, step);
    TermsKept(Next(mid, step), after, step.c);
  }

  /** Standing: issued and not revoked. */
  predicate Standing(k: Desk, c: ClaimId) {
    c in k.claims && k.claims[c].revokedAt.None?
  }

  /** What ends a code and its session: a newer code of the membership, its own revocation, or the
      holder's transition with the claim hook. */
  ghost predicate EndsClaim(w: World, step: Step, c: ClaimId)
    requires c in w.desk.claims && Enabled(w, step)
  {
    var (k, claim) := (w.desk, w.desk.claims[c]);
    || (step.Issue? && step.m == claim.membership && step.c in Next(w, step).desk.claims)
    || (step.Revoke? && step.c == c && step.authorised && claim.membership in k.memberships
        && k.memberships[claim.membership].makerspace == step.makerspace)
    || (Transitions(w, step) && claim.membership in k.memberships && k.memberships[claim.membership].user == step.u)
  }

  lemma StandingEndsExactly(w: World, step: Step, c: ClaimId)
    requires Inv(w) && Enabled(w, step) && Standing(w.desk, c)
    ensures Standing(Next(w, step).desk, c) <==> !EndsClaim(w, step, c)
  {
    match step
    case Issue(_, _, _, c', _, _, _) =>
      assert ClaimInv(w.log, w.desk.sessionTtl, c, w.desk.claims[c]);
      UnprintedIsFree(w, c');
    case Revoke(_, _, _, _) =>
    case Redeem(_, _, _) =>
    case Transition(_, _, _, _, _, _) =>
    case _ => ClaimsUntouched(w, step);
  }

  /** A code whose claim has ended opens nothing, and its session is over, along every later run. */
  lemma EndedForGood(w: World, steps: seq<Step>, step: Step, later: seq<Step>, c: ClaimId, code: Presented,
                     portal: Option<MakerspaceId>, token: Bearer, at: Time)
    requires Fresh(w) && Run(w, steps) && Enabled(End(w, steps), step) && Standing(End(w, steps).desk, c)
    requires EndsClaim(End(w, steps), step, c) && Run(Next(End(w, steps), step), later)
    requires code.Code? && code.claim == c && token.session == End(w, steps).desk.claims[c].session
    ensures var end := End(Next(End(w, steps), step), later);
            RedemptionOf(end.desk, end.devices.store, code, portal, at) != Accepted && !Honoured(end, token, at)
  {
    Reached(w, steps);
    var before := End(w, steps);
    EndedNow(before, step, c);
    NeverRevives(Next(before, step), later, token.session, 0);
    RevokedStays(Next(before, step), later, c);
    NothingOpens(End(Next(before, step), later), c, code, portal, token, at);
  }

  lemma NothingOpens(w: World, c: ClaimId, code: Presented, portal: Option<MakerspaceId>, token: Bearer, at: Time)
    requires SessionDead(w, token.session) && c in w.desk.claims && w.desk.claims[c].revokedAt.Some?
    requires code.Code? && code.claim == c
    ensures RedemptionOf(w.desk, w.devices.store, code, portal, at) != Accepted && !Honoured(w, token, at)
  {}

  lemma EndedNow(w: World, step: Step, c: ClaimId)
    requires Inv(w) && Enabled(w, step) && Standing(w.desk, c) && EndsClaim(w, step, c)
    ensures Inv(Next(w, step)) && SessionDead(Next(w, step), w.desk.claims[c].session)
    ensures c in Next(w, step).desk.claims && Next(w, step).desk.claims[c].revokedAt.Some?
  {
    assert ClaimInv(w.log, w.desk.sessionTtl, c, w.desk.claims[c]);
    StandingEndsExactly(w, step, c);
    StepKeeps(w, step);
    SessionKept(w, step, c);
    StepInherits(w, step);
    var (claims, session) := (Next(w, step).desk.claims, w.desk.claims[c].session);
    assert OwnSessions(claims);
    forall b | b in claims && claims[b].session == session ensures b == c {}
  }

  lemma SessionKept(w: World, step: Step, c: ClaimId)
    requires Inv(w) && Enabled(w, step) && c in w.desk.claims
    ensures c in Next(w, step).desk.claims && Next(w, step).desk.claims[c].session == w.desk.claims[c].session
    ensures w.desk.claims[c].revokedAt.Some? ==> Next(w, step).desk.claims[c].revokedAt.Some?
  {
    StepInherits(w, step);
    StepKeepsTerms(w, step, c);
  }

  lemma {:induction false} RevokedStays(w: World, steps: seq<Step>, c: ClaimId)
    requires Inv(w) && Run(w, steps) && c in w.desk.claims && w.desk.claims[c].revokedAt.Some?
    ensures c in End(w, steps).desk.claims && End(w, steps).desk.claims[c].revokedAt.Some?
    decreases |steps|
  {
    if steps != [] {
      StepKeeps(w, steps[0]);
      SessionKept(w, steps[0], c);
      RevokedStays(Next(w, steps[0]), steps[1..], c);
    }
  }

  // ---- People ------------------------------------------------------------------------------

  /** The person changes only by a transition of their own or an edit, and nobody else ever by it. */
  lemma StepChangesPeople(w: World, step: Step, u: UserId)
    requires Enabled(w, step) && u in w.desk.people
    ensures u in Next(w, step).desk.people
    ensures !(step.EditPerson? && step.u == u) && !(Commits(w, step) && step.u == u) ==>
              Next(w, step).desk.people[u] == w.desk.people[u]
    ensures Commits(w, step) && step.u == u ==>
              var (p, p') := (w.desk.people[u], Next(w, step).desk.people[u]);
              && p.walkIn && !p'.walkIn && p'.usablePassword == (step.password || p.usablePassword)
              && p'.phoneProven == p.phoneProven && p'.telegram == p.telegram
              && p'.emailVerified == p.emailVerified && p'.social == p.social
  {
    match step
    case Redeem(_, _, _) => assert Next(w, step).desk.people == w.desk.people;
    case Revoke(_, _, _, _) => assert Next(w, step).desk.people == w.desk.people;
    case _ =>
  }

  /** A transition that goes through, stated on the rows. */
  predicate Commits(w: World, step: Step) {
    && step.Transition? && !step.failed && step.u in w.desk.people && w.desk.people[step.u].walkIn
    && forall m | m in w.desk.memberships && w.desk.memberships[m].user == step.u :: w.desk.memberships[m].makerspace in step.admitted
  }

  lemma CommitsExactly(w: World, step: Step)
    requires step.Transition?
    ensures TransitionOutcomeFor(w.desk, step.u, step.admitted, step.failed) == Transitioned <==> Commits(w, step)
  {}

  lemma {:induction false} AccountStays(w: World, steps: seq<Step>, u: UserId)
    requires Run(w, steps) && u in w.desk.people && !w.desk.people[u].walkIn
    requires forall i | 0 <= i < |steps| :: !(steps[i].EditPerson? && steps[i].u == u)
    ensures u in End(w, steps).desk.people && End(w, steps).desk.people[u] == w.desk.people[u]
    decreases |steps|
  {
    if steps != [] {
      StepChangesPeople(w, steps[0], u);
      AccountStays(Next(w, steps[0]), steps[1..], u);
    }
  }

  /** A committed transition makes an account of the walk-in, for good: unless the person is edited,
      they are never transitioned again, get no code, redeem none and have no session, whatever is
      done with any membership they hold then. */
  lemma TransitionMakesAccount(w: World, step: Step, later: seq<Step>)
    requires step.Transition? && Commits(w, step) && Run(Next(w, step), later)
    requires forall i | 0 <= i < |later| :: !(later[i].EditPerson? && later[i].u == step.u)
    ensures var (u, end) := (step.u, End(Next(w, step), later));
            var (k, d) := (end.desk, end.devices.store);
            && u in k.people && !k.people[u].walkIn
            && k.people[u].usablePassword == (step.password || w.desk.people[u].usablePassword)
            && (forall admitted, failed :: TransitionOutcomeFor(k, u, admitted, failed) in {NotWalkIn, ScopeChanged})
            && (forall authorised, makerspace, m | m in k.memberships && k.memberships[m].user == u ::
                  !IssueOutcomeFor(k, d, authorised, makerspace, m).Issued?)
            && (forall code: Presented, portal, at | code.Code? && OwnedBy(k, code.claim, u) ::
                  RedemptionOf(k, d, code, portal, at) != Accepted)
            && (forall c, at | OwnedBy(k, c, u) :: !LiveSession(k, d, c, at))
  {
    StepChangesPeople(w, step, step.u);
    AccountStays(Next(w, step), later, step.u);
  }

  predicate DeviceToken(d: D.Store, j: D.Jti) {
    j in d.tokens
  }

  /** Nobody else's record is touched by it, and a transition that does not commit changes nothing. */
  lemma TransitionTouchesOne(w: World, step: Step)
    requires step.Transition?
    ensures Next(w, step).desk.memberships == w.desk.memberships
    ensures forall v | v in w.desk.people && v != step.u :: v in Next(w, step).desk.people && Next(w, step).desk.people[v] == w.desk.people[v]
    ensures !Commits(w, step) ==> Next(w, step) == w
    ensures Commits(w, step) ==> forall j | j in w.desk.outstanding && w.desk.outstanding[j] == step.u :: j in Next(w, step).devices.store.barred
    ensures forall j | j in Next(w, step).devices.store.barred && j !in w.devices.store.barred && j in w.desk.outstanding ::
              w.desk.outstanding[j] == step.u || DeviceToken(w.devices.store, j)
  {
    CommitsExactly(w, step);
    if Commits(w, step) {
      assert forall j | j in w.desk.outstanding && w.desk.outstanding[j] == step.u :: j in OutstandingOf(w.desk, step.u);
    }
  }

  // ---- Bearers -----------------------------------------------------------------------------

  /** The session row stands: redeemed, not revoked, in time, of an active membership of a visitor. */
  predicate OpenSession(k: Desk, d: D.Store, c: ClaimId, at: Time) {
    && c in k.claims && k.claims[c].consumedAt.Some? && k.claims[c].revokedAt.None?
    && k.claims[c].deadline.Some? && at < k.claims[c].deadline.value
    && k.claims[c].membership in k.memberships && k.memberships[k.claims[c].membership].active
    && Visitor(k, d, k.memberships[k.claims[c].membership].user)
  }

  /** The token's claims are those of the row. */
  predicate OfRow(k: Desk, token: Bearer, c: ClaimId) {
    && c in k.claims && k.claims[c].deadline.Some? && k.claims[c].membership in k.memberships
    && token.session == k.claims[c].session && token.membership == k.claims[c].membership
    && token.makerspace == k.memberships[k.claims[c].membership].makerspace
    && token.user == k.memberships[k.claims[c].membership].user
    && token.deadline == Seconds(k.claims[c].deadline.value)
  }

  lemma SessionExactly(w: World, token: Bearer, at: Time, c: ClaimId)
    requires Inv(w)
    ensures SessionOf(w.desk, w.devices.store, token, at) == Some(c) <==>
              OpenSession(w.desk, w.devices.store, c, at) && OfRow(w.desk, token, c)
  {
    var (k, d) := (w.desk, w.devices.store);
    forall b | b in k.claims && k.claims[b].membership in k.memberships
      ensures LiveSession(k, d, b, at) <==> OpenSession(k, d, b, at)
    {
      VisitorExactly(k, d, k.memberships[k.claims[b].membership].user);
    }
    if OpenSession(k, d, c, at) && OfRow(k, token, c) {
      assert c in SessionRows(k, d, token, at);
      assert First(SessionRows(k, d, token, at)).value in SessionRows(k, d, token, at);
    }
  }

  /** In every reachable state an access token is honoured exactly if it was signed by this
      deployment generation, has not expired, and its session stands. */
  lemma AccessExactly(w: World, steps: seq<Step>, token: Bearer, at: Time)
    requires Fresh(w) && Run(w, steps)
    ensures var end := End(w, steps);
            AcceptsAccess(end.desk, end.devices.store, token, at) <==>
              && token in end.desk.signed && token.kind == Access && at < token.expires * SECOND
              && token.generation == end.devices.store.generation
              && exists c :: OpenSession(end.desk, end.devices.store, c, at) && OfRow(end.desk, token, c)
  {
    Reached(w, steps);
    var end := End(w, steps);
    forall c: ClaimId ensures SessionOf(end.desk, end.devices.store, token, at) == Some(c) <==>
                       OpenSession(end.desk, end.devices.store, c, at) && OfRow(end.desk, token, c) {
      SessionExactly(end, token, at, c);
    }
  }

  /** The token was signed for refreshing by this deployment generation, has not expired, and its
      identifier was recorded and never barred. */
  predicate SignedRefresh(w: World, step: Step)
    requires step.Exchange?
  {
    var token := step.token;
    && token in w.desk.signed && token.kind == Refresh && step.at < token.expires * SECOND
    && token.generation == w.devices.store.generation
    && token.jti in w.desk.outstanding && token.jti !in w.devices.store.barred
  }

  /** The identifier is spent and its successor recorded and signed for the same session. */
  predicate Succeeded(w: World, w': World, step: Step)
    requires step.Exchange?
  {
    var token := step.token;
    && w'.log.rotations == w.log.rotations + [token.jti]
    && w'.devices.store.barred == w.devices.store.barred + {token.jti}
    && w'.desk.outstanding == w.desk.outstanding[step.j := token.user]
    && w'.desk.signed == w.desk.signed
         + {token.(kind := Refresh, jti := step.j, expires := token.deadline),
            token.(kind := Access, jti := step.accessJti, expires := step.accessExpires)}
  }

  /** And a refresh token is exchanged exactly if in addition its identifier is current and a
      successor may still be minted for the session; otherwise nothing changes. */
  lemma RefreshExactly(w: World, steps: seq<Step>, step: Step)
    requires Fresh(w) && Run(w, steps) && step.Exchange? && Enabled(End(w, steps), step)
    ensures var (end, end') := (End(w, steps), Next(End(w, steps), step));
            if SignedRefresh(end, step) && exists c: ClaimId :: Refreshable(end, step, c) then Succeeded(end, end', step)
            else end' == end
  {
    Reached(w, steps);
    Refreshed(End(w, steps), step);
  }

  /** What a refresh needs besides a signed token. */
  predicate Refreshable(w: World, step: Step, c: ClaimId)
    requires step.Exchange?
  {
    && OpenSession(w.desk, w.devices.store, c, step.at) && OfRow(w.desk, step.token, c)
    && step.allowed && step.mintAt < w.desk.claims[c].deadline.value
  }

  lemma Refreshed(w: World, step: Step)
    requires Inv(w) && step.Exchange? && Enabled(w, step)
    ensures RefreshVerdictOn(w.desk, w.devices.store, step.token, step.at, step.mintAt, step.allowed) == Rotated <==>
              SignedRefresh(w, step) && exists c: ClaimId :: Refreshable(w, step, c)
    ensures RefreshVerdictOn(w.desk, w.devices.store, step.token, step.at, step.mintAt, step.allowed) == Rotated ==>
              Succeeded(w, Next(w, step), step)
  {
    forall c: ClaimId ensures Refreshable(w, step, c) <==> RefreshableRow(w, step, c) {
      SessionExactly(w, step.token, step.at, c);
    }
    var row := SessionOf(w.desk, w.devices.store, step.token, step.at);
    if RefreshVerdictOn(w.desk, w.devices.store, step.token, step.at, step.mintAt, step.allowed) == Rotated {
      assert Refreshable(w, step, row.value);
      Successors(w, step, row.value);
    }
  }

  predicate RefreshableRow(w: World, step: Step, c: ClaimId)
    requires step.Exchange?
  {
    && SessionOf(w.desk, w.devices.store, step.token, step.at) == Some(c)
    && Mintable(w.desk, c, step.mintAt, step.allowed)
  }

  lemma Successors(w: World, step: Step, c: ClaimId)
    requires step.Exchange? && Enabled(w, step)
    requires RefreshVerdictOn(w.desk, w.devices.store, step.token, step.at, step.mintAt, step.allowed) == Rotated
    requires SessionOf(w.desk, w.devices.store, step.token, step.at) == Some(c)
    ensures Succeeded(w, Next(w, step), step)
  {
    var (d, token) := (w.devices.store, step.token);
    assert BearerFor(w.desk, d, c, Refresh, step.j, token.deadline) == token.(kind := Refresh, jti := step.j, expires := token.deadline);
    assert BearerFor(w.desk, d, c, Access, step.accessJti, step.accessExpires)
        == token.(kind := Access, jti := step.accessJti, expires := step.accessExpires);
  }

  // ---- The way it is meant to go -------------------------------------------------------------

  /** A visitor handed a code within its lifetime gets a session at once, and its first access token
      is honoured until it expires or the session does. */
  lemma VisitWorks(w: World, issue: Step, at: Time, open: Step, then': Time) returns (redeem: Step, token: Bearer)
    requires Inv(w) && issue.Issue? && Enabled(w, issue) && issue.c in Next(w, issue).desk.claims
    requires at < issue.at + w.desk.codeTtl
    requires open.Open? && open.c == issue.c && open.allowed && open.at < at + w.desk.sessionTtl
    requires then' < at + w.desk.sessionTtl && then' < open.accessExpires * SECOND
    ensures redeem == Redeem(Code(issue.c, issue.secret), Some(issue.makerspace), at)
    ensures var w1 := Next(w, issue);
            && Enabled(w1, redeem) && Enabled(Next(w1, redeem), open)
            && token in Next(Next(w1, redeem), open).desk.signed && token.jti == open.accessJti
            && token.user == w.desk.memberships[issue.m].user && token.makerspace == issue.makerspace
            && AcceptsAccess(Next(Next(w1, redeem), open).desk, w.devices.store, token, then')
  {
    var w1 := Handed(w, issue);
    redeem := Redeem(Code(issue.c, issue.secret), Some(issue.makerspace), at);
    var w2 := Redeemed(w1, issue.c, issue.secret, issue.makerspace, at);
    StepKeeps(w1, redeem);
    token := FirstToken(w2, open, then');
  }

  lemma Handed(w: World, issue: Step) returns (w1: World)
    requires Inv(w) && issue.Issue? && Enabled(w, issue) && issue.c in Next(w, issue).desk.claims
    ensures w1 == Next(w, issue) && Inv(w1) && w1.devices == w.devices && w1.desk == w.desk.(claims := w1.desk.claims)
    ensures Standing(w1.desk, issue.c) && issue.m in w.desk.memberships
    ensures var claim := w1.desk.claims[issue.c];
            && claim.membership == issue.m && claim.consumedAt.None? && claim.failed == 0
            && claim.digest == CodeDigest(issue.c, issue.secret) && claim.expiresAt == issue.at + w.desk.codeTtl
    ensures var membership := w.desk.memberships[issue.m];
            && membership.active && membership.makerspace == issue.makerspace
            && Visitor(w1.desk, w1.devices.store, membership.user)
  {
    IssuedExactly(w, issue);
    StepKeeps(w, issue);
    w1 := Next(w, issue);
    SamePeople(w.desk, w1.desk, w.devices.store, w.desk.memberships[issue.m].user);
  }

  lemma SamePeople(k: Desk, k': Desk, d: D.Store, u: UserId)
    requires k.people == k'.people
    ensures Visitor(k, d, u) <==> Visitor(k', d, u)
  {}

  lemma Redeemed(w: World, c: ClaimId, secret: string, makerspace: MakerspaceId, at: Time) returns (w': World)
    requires Inv(w) && Standing(w.desk, c) && w.desk.claims[c].consumedAt.None? && w.desk.claims[c].failed < MAX_FAILED_ATTEMPTS
    requires w.desk.claims[c].digest == CodeDigest(c, secret) && at < w.desk.claims[c].expiresAt
    requires w.desk.claims[c].membership in w.desk.memberships
    requires var membership := w.desk.memberships[w.desk.claims[c].membership];
             membership.active && membership.makerspace == makerspace && Visitor(w.desk, w.devices.store, membership.user)
    ensures w' == Next(w, Redeem(Code(c, secret), Some(makerspace), at)) && c in w'.log.awaiting
    ensures w'.devices == w.devices && w'.desk == w.desk.(claims := w'.desk.claims)
    ensures c in w'.desk.claims && w'.desk.claims[c] == w.desk.claims[c].(consumedAt := Some(at), deadline := Some(at + w.desk.sessionTtl))
  {
    VisitorExactly(w.desk, w.devices.store, w.desk.memberships[w.desk.claims[c].membership].user);
    w' := Next(w, Redeem(Code(c, secret), Some(makerspace), at));
  }

  lemma FirstToken(w: World, open: Step, then': Time) returns (token: Bearer)
    requires Inv(w) && open.Open? && Enabled(w, open) && open.allowed && open.c in w.desk.claims
    requires w.desk.claims[open.c].deadline.Some? && open.at < w.desk.claims[open.c].deadline.value
    requires OpenSession(w.desk, w.devices.store, open.c, then') && then' < open.accessExpires * SECOND
    ensures var membership := w.desk.memberships[w.desk.claims[open.c].membership];
            var end := Next(w, open);
            && token in end.desk.signed && token.jti == open.accessJti
            && token.user == membership.user && token.makerspace == membership.makerspace
            && AcceptsAccess(end.desk, w.devices.store, token, then')
  {
    var end := Next(w, open);
    StepKeeps(w, open);
    token := BearerFor(w.desk, w.devices.store, open.c, Access, open.accessJti, open.accessExpires);
    assert end.desk == MintedDesk(w.desk, w.devices.store, open.c, open.j, open.accessJti, open.accessExpires);
    SamePeople(w.desk, end.desk, w.devices.store, token.user);
    assert OfRow(end.desk, token, open.c) && OpenSession(end.desk, w.devices.store, open.c, then');
    SessionExactly(end, token, then', open.c);
  }
}
