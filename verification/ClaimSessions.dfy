/** Physically handed claim codes, the bounded sessions they redeem into, the rotation of those
    sessions' refresh tokens, and the walk-in transition that ends them all.

    `Desk` holds the rows; device authority and the token library's blacklist are those of
    DeviceFamilies. Instants are microseconds, token claims are whole seconds. Run-level results
    are in ClaimRuns. */
module ClaimSessions {
  import opened Common
  import D = DeviceFamilies

  type Time = int
  type UserId = D.UserId
  type MakerspaceId = nat
  type MembershipId = nat
  type ClaimId = nat
  type SessionId = nat

  const MAX_FAILED_ATTEMPTS: nat := 5
  const SECOND: Time := 1_000_000
  const CLAIM_HOOK: string := "member-claim-state"

  datatype Person = Person(walkIn: bool, usablePassword: bool, phoneProven: bool, telegram: bool,
                           emailVerified: bool, social: bool)

  datatype Membership = Membership(user: UserId, makerspace: MakerspaceId, active: bool)

  /** Ideal keyed digest of a normalized code; the code spells out its row. */
  datatype CodeDigest = CodeDigest(claim: ClaimId, secret: string)

  datatype Claim = Claim(
    membership: MembershipId, digest: CodeDigest, expiresAt: Time, consumedAt: Option<Time>,
    deadline: Option<Time>, failed: nat, revokedAt: Option<Time>, session: SessionId)

  /** What a visitor typed, after the code pattern was matched. */
  datatype Presented = Garbled | Code(claim: ClaimId, secret: string)

  datatype Kind = Access | Refresh

  datatype Bearer = Bearer(kind: Kind, jti: D.Jti, session: SessionId, membership: MembershipId,
                           makerspace: MakerspaceId, user: UserId, deadline: int, generation: nat, expires: int)

  datatype Desk = Desk(
    people: map<UserId, Person>,
    memberships: map<MembershipId, Membership>,
    claims: map<ClaimId, Claim>,
    outstanding: map<D.Jti, UserId>,  // refresh identifiers of claim sessions
    signed: set<Bearer>,              // tokens whose signature verifies
    codeTtl: Time,
    sessionTtl: Time)

  function Seconds(t: Time): int { t / SECOND }

  // ---- Eligibility -------------------------------------------------------------------------

  predicate CredentialFree(k: Desk, d: D.Store, u: UserId) {
    && u in k.people && u in d.users
    && !d.users[u].dumpStub && d.users[u].active && d.users[u].accessActive
    && var p := k.people[u];
       && p.walkIn && !p.usablePassword && !p.phoneProven && !p.telegram && !p.emailVerified && !p.social
       && D.ActiveGrantsOf(d, u) == {}
  }

  predicate Eligible(k: Desk, d: D.Store, makerspace: MakerspaceId, m: MembershipId) {
    && m in k.memberships && k.memberships[m].makerspace == makerspace && k.memberships[m].active
    && CredentialFree(k, d, k.memberships[m].user)
  }

  // ---- Issue and revoke --------------------------------------------------------------------

  function Revoked(claims: map<ClaimId, Claim>, ending: set<ClaimId>, at: Time): map<ClaimId, Claim> {
    map c | c in claims :: if c in ending then claims[c].(revokedAt := Some(at)) else claims[c]
  }

  function StandingClaims(claims: map<ClaimId, Claim>, m: MembershipId): set<ClaimId> {
    set c | c in claims && claims[c].membership == m && claims[c].revokedAt.None?
  }

  function StandingClaimsOf(k: Desk, u: UserId): set<ClaimId> {
    set c | c in k.claims && k.claims[c].revokedAt.None?
         && k.claims[c].membership in k.memberships && k.memberships[k.claims[c].membership].user == u
  }

  datatype IssueOutcome = Denied | Ineligible | Issued

  function IssueOutcomeFor(k: Desk, d: D.Store, authorised: bool, makerspace: MakerspaceId, m: MembershipId): IssueOutcome {
    if !authorised then Denied else if !Eligible(k, d, makerspace, m) then Ineligible else Issued
  }

  function IssuedDesk(k: Desk, m: MembershipId, c: ClaimId, secret: string, session: SessionId, at: Time): Desk {
    var prior := Revoked(k.claims, StandingClaims(k.claims, m), at);
    k.(claims := prior[c := Claim(m, CodeDigest(c, secret), at + k.codeTtl, None, None, 0, None, session)])
  }

  predicate Revocable(k: Desk, authorised: bool, makerspace: MakerspaceId, c: ClaimId) {
    && authorised && c in k.claims
    && k.claims[c].membership in k.memberships
    && k.memberships[k.claims[c].membership].makerspace == makerspace
  }

  function RevokedDesk(k: Desk, authorised: bool, makerspace: MakerspaceId, c: ClaimId, at: Time): Desk {
    if Revocable(k, authorised, makerspace, c) && k.claims[c].revokedAt.None?
    then k.(claims := k.claims[c := k.claims[c].(revokedAt := Some(at))])
    else k
  }

  // ---- Redemption --------------------------------------------------------------------------

  datatype Redemption = Unknown | Used | Mismatch | Burnt | Accepted

  function RedemptionOf(k: Desk, d: D.Store, code: Presented, makerspace: Option<MakerspaceId>, at: Time): Redemption {
    if code.Garbled? || code.claim !in k.claims then Unknown
    else
      var claim := k.claims[code.claim];
      if claim.consumedAt.Some? || claim.failed >= MAX_FAILED_ATTEMPTS then Used
      else if claim.digest != CodeDigest(code.claim, code.secret) then Mismatch
      else if claim.membership !in k.memberships
              || !Eligible(k, d, k.memberships[claim.membership].makerspace, claim.membership)
              || (makerspace.Some? && k.memberships[claim.membership].makerspace != makerspace.value)
              || claim.revokedAt.Some? || claim.expiresAt <= at
      then Burnt
      else Accepted
  }

  /** A wrong guess; the fifth uses the code up. */
  function Guessed(claim: Claim, at: Time): Claim {
    claim.(failed := claim.failed + 1,
           consumedAt := if claim.failed + 1 >= MAX_FAILED_ATTEMPTS then Some(at) else claim.consumedAt)
  }

  function RedeemedClaim(claim: Claim, redemption: Redemption, ttl: Time, at: Time): Claim {
    match redemption
    case Mismatch => Guessed(claim, at)
    case Burnt => claim.(consumedAt := Some(at))
    case Accepted => claim.(consumedAt := Some(at), deadline := Some(at + ttl))
    case _ => claim
  }

  function RedeemedDesk(k: Desk, d: D.Store, code: Presented, makerspace: Option<MakerspaceId>, at: Time): Desk {
    var redemption := RedemptionOf(k, d, code, makerspace, at);
    if redemption.Unknown? || redemption.Used? then k
    else k.(claims := k.claims[code.claim := RedeemedClaim(k.claims[code.claim], redemption, k.sessionTtl, at)])
  }

  // ---- Sessions ----------------------------------------------------------------------------

  predicate Mintable(k: Desk, c: ClaimId, at: Time, allowed: bool) {
    && c in k.claims && k.claims[c].deadline.Some? && k.claims[c].deadline.value > at && allowed
    && k.claims[c].membership in k.memberships
  }

  function BearerFor(k: Desk, d: D.Store, c: ClaimId, kind: Kind, j: D.Jti, expires: int): Bearer
    requires c in k.claims && k.claims[c].deadline.Some? && k.claims[c].membership in k.memberships
  {
    var claim := k.claims[c];
    var membership := k.memberships[claim.membership];
    Bearer(kind, j, claim.session, claim.membership, membership.makerspace, membership.user,
           Seconds(claim.deadline.value), d.generation, expires)
  }

  function MintedDesk(k: Desk, d: D.Store, c: ClaimId, j: D.Jti, accessJti: D.Jti, accessExpires: int): Desk
    requires c in k.claims && k.claims[c].deadline.Some? && k.claims[c].membership in k.memberships
  {
    var refresh := BearerFor(k, d, c, Refresh, j, Seconds(k.claims[c].deadline.value));
    k.(outstanding := k.outstanding[j := refresh.user],
       signed := k.signed + {refresh, BearerFor(k, d, c, Access, accessJti, accessExpires)})
  }

  predicate LiveSession(k: Desk, d: D.Store, c: ClaimId, at: Time)
    requires c in k.claims
  {
    var claim := k.claims[c];
    && claim.consumedAt.Some? && claim.revokedAt.None?
    && claim.deadline.Some? && claim.deadline.value > at
    && claim.membership in k.memberships && k.memberships[claim.membership].active
    && CredentialFree(k, d, k.memberships[claim.membership].user)
  }

  predicate MatchesRow(k: Desk, token: Bearer, c: ClaimId)
    requires c in k.claims && k.claims[c].deadline.Some? && k.claims[c].membership in k.memberships
  {
    var claim := k.claims[c];
    var membership := k.memberships[claim.membership];
    && token.session == claim.session && token.membership == claim.membership
    && token.makerspace == membership.makerspace && token.user == membership.user
    && token.deadline == Seconds(claim.deadline.value)
  }

  function SessionRows(k: Desk, d: D.Store, token: Bearer, at: Time): set<ClaimId> {
    set c | c in k.claims && k.claims[c].session == token.session && LiveSession(k, d, c, at)
  }

  /** The live session row a token is bound to. */
  function SessionOf(k: Desk, d: D.Store, token: Bearer, at: Time): (row: Option<ClaimId>)
    ensures row.Some? ==> row.value in k.claims && LiveSession(k, d, row.value, at) && MatchesRow(k, token, row.value)
  {
    var found := First(SessionRows(k, d, token, at));
    if found.Some? && MatchesRow(k, token, found.value) then found else None
  }

  predicate Verified(k: Desk, d: D.Store, token: Bearer, kind: Kind, at: Time) {
    && token in k.signed && token.kind == kind && token.expires * SECOND > at && token.generation == d.generation
    && (kind.Refresh? ==> token.jti !in d.barred)
  }

  predicate AcceptsAccess(k: Desk, d: D.Store, token: Bearer, at: Time) {
    Verified(k, d, token, Access, at) && SessionOf(k, d, token, at).Some?
  }

  datatype RefreshVerdict = BadToken | NoSession | MintRefused | Rotated

  function RefreshVerdictOn(k: Desk, d: D.Store, token: Bearer, at: Time, mintAt: Time, allowed: bool): RefreshVerdict {
    if !Verified(k, d, token, Refresh, at) || token.jti !in k.outstanding then BadToken
    else
      match SessionOf(k, d, token, at)
      case None => NoSession
      case Some(c) => if Mintable(k, c, mintAt, allowed) then Rotated else MintRefused
  }

  // ---- The walk-in transition ----------------------------------------------------------------

  /** Database-only callbacks a transition runs; `Other` is any that leaves these rows alone. */
  datatype Hook = ClaimState | Other(code: nat)

  datatype TransitionOutcome = NoUser | ScopeChanged | NotWalkIn | HookFailed | Transitioned

  function MakerspacesOf(k: Desk, u: UserId): set<MakerspaceId> {
    set m | m in k.memberships && k.memberships[m].user == u :: k.memberships[m].makerspace
  }

  function OutstandingOf(k: Desk, u: UserId): set<D.Jti> {
    set j | j in k.outstanding && k.outstanding[j] == u
  }

  function TransitionOutcomeFor(k: Desk, u: UserId, admitted: set<MakerspaceId>, failed: bool): TransitionOutcome {
    if u !in k.people then NoUser
    else if !(MakerspacesOf(k, u) <= admitted) then ScopeChanged
    else if !k.people[u].walkIn then NotWalkIn
    else if failed then HookFailed
    else Transitioned
  }

  function TransitionedDesk(k: Desk, u: UserId, hooks: seq<Hook>, password: bool, at: Time): Desk
    requires u in k.people
  {
    var p := k.people[u];
    k.(people := k.people[u := p.(walkIn := false, usablePassword := password || p.usablePassword)],
       claims := if ClaimState in hooks then Revoked(k.claims, StandingClaimsOf(k, u), at) else k.claims)
  }

  // ---- Lemmas for the loops ------------------------------------------------------------------

  lemma RevokeNothing(claims: map<ClaimId, Claim>, at: Time)
    ensures Revoked(claims, {}, at) == claims
  {}

  lemma RevokeOneMore(claims: map<ClaimId, Claim>, ending: set<ClaimId>, c: ClaimId, at: Time)
    requires c in claims
    ensures Revoked(claims, ending + {c}, at)
         == Revoked(claims, ending, at)[c := Revoked(claims, ending, at)[c].(revokedAt := Some(at))]
  {}

  class ClaimDesk {
    var people: map<UserId, Person>
    var memberships: map<MembershipId, Membership>
    var claims: map<ClaimId, Claim>
    var outstanding: map<D.Jti, UserId>
    var signed: set<Bearer>
    const codeTtl: Time
    const sessionTtl: Time
    const devices: D.DeviceAuthority

    function Contents(): Desk reads this {
      Desk(people, memberships, claims, outstanding, signed, codeTtl, sessionTtl)
    }

    function Devices(): D.Store reads devices {
      devices.Contents()
    }

    constructor (people: map<UserId, Person>, memberships: map<MembershipId, Membership>,
                 codeTtl: Time, sessionTtl: Time, devices: D.DeviceAuthority)
      ensures Contents() == Desk(people, memberships, map[], map[], {}, codeTtl, sessionTtl)
      ensures this.devices == devices
    {
      this.people, this.memberships, this.devices := people, memberships, devices;
      this.codeTtl, this.sessionTtl := codeTtl, sessionTtl;
      claims, outstanding, signed := map[], map[], {};
    }

    method RevokeLockedClaims(ending: set<ClaimId>, now: Time)
      requires ending <= claims.Keys
      modifies this`claims
      ensures claims == Revoked(old(claims), ending, now)
    {
      var todo := ending;
      RevokeNothing(claims, now);
      assert ending - todo == {};
      while todo != {}
        invariant todo <= ending
        invariant claims == Revoked(old(claims), ending - todo, now)
        decreases |todo|
      {
        var c :| c in todo;
        RevokeOneMore(old(claims), ending - todo, c, now);
        assert ending - (todo - {c}) == ending - todo + {c};
        claims := claims[c := claims[c].(revokedAt := Some(now))];
        todo := todo - {c};
      }
      assert ending - todo == ending;
    }

    /** Mint one code for a membership, ending every code and session it had before. */
    method IssueClaimCode(authorised: bool, makerspace: MakerspaceId, m: MembershipId, c: ClaimId, secret: string,
                          session: SessionId, now: Time) returns (outcome: IssueOutcome)
      requires c !in claims
      modifies this`claims
      ensures outcome == IssueOutcomeFor(old(Contents()), Devices(), authorised, makerspace, m)
      ensures Contents() == if outcome.Issued? then IssuedDesk(old(Contents()), m, c, secret, session, now) else old(Contents())
    {
      if !authorised {
        return Denied;
      }
      if m !in memberships || memberships[m].makerspace != makerspace || !memberships[m].active
         || !CredentialFree(Contents(), devices.Contents(), memberships[m].user) {
        return Ineligible;
      }
      RevokeLockedClaims(StandingClaims(claims, m), now);
      claims := claims[c := Claim(m, CodeDigest(c, secret), now + codeTtl, None, None, 0, None, session)];
      return Issued;
    }

    method RevokeClaimCode(authorised: bool, makerspace: MakerspaceId, c: ClaimId, now: Time) returns (found: bool)
      modifies this`claims
      ensures found == Revocable(old(Contents()), authorised, makerspace, c)
      ensures Contents() == RevokedDesk(old(Contents()), authorised, makerspace, c, now)
    {
      if !authorised || c !in claims || claims[c].membership !in memberships
         || memberships[claims[c].membership].makerspace != makerspace {
        return false;
      }
      if claims[c].revokedAt.None? {
        claims := claims[c := claims[c].(revokedAt := Some(now))];
      }
      return true;
    }

    /** Consume a code first, then decide whether it opens a session. */
    method ConsumeClaimCode(code: Presented, makerspace: Option<MakerspaceId>, now: Time) returns (redemption: Redemption)
      modifies this`claims
      ensures redemption == RedemptionOf(old(Contents()), Devices(), code, makerspace, now)
      ensures Contents() == RedeemedDesk(old(Contents()), Devices(), code, makerspace, now)
    {
      if code.Garbled? || code.claim !in claims {
        return Unknown;
      }
      var c := code.claim;
      var claim := claims[c];
      if claim.consumedAt.Some? || claim.failed >= MAX_FAILED_ATTEMPTS {
        return Used;
      }
      if claim.digest != CodeDigest(c, code.secret) {
        claim := claim.(failed := claim.failed + 1);
        if claim.failed >= MAX_FAILED_ATTEMPTS {
          claim := claim.(consumedAt := Some(now));
        }
        claims := claims[c := claim];
        return Mismatch;
      }
      ghost var before := Contents();
      claim := claim.(consumedAt := Some(now));
      claims := claims[c := claim];
      if claim.membership !in memberships {
        return Burnt;
      }
      var held := memberships[claim.membership];
      if !held.active || !CredentialFree(Contents(), devices.Contents(), held.user) {
        return Burnt;
      }
      if makerspace.Some? && held.makerspace != makerspace.value {
        return Burnt;
      }
      if claim.revokedAt.Some? || claim.expiresAt <= now {
        return Burnt;
      }
      claim := claim.(deadline := Some(now + sessionTtl));
      claims := claims[c := claim];
      return Accepted;
    }

    /** A refresh and an access token bound to one session row and its deadline. */
    method TokensForClaim(c: ClaimId, now: Time, allowed: bool, j: D.Jti, accessJti: D.Jti, accessExpires: int)
      returns (minted: bool)
      requires c in claims && claims[c].membership in memberships
      modifies this`outstanding, this`signed
      ensures minted == Mintable(old(Contents()), c, now, allowed)
      ensures Contents() == if minted then MintedDesk(old(Contents()), Devices(), c, j, accessJti, accessExpires) else old(Contents())
    {
      var claim := claims[c];
      if claim.deadline.None? || claim.deadline.value <= now || !allowed {
        return false;
      }
      var held := memberships[claim.membership];
      var refresh := Bearer(Refresh, j, claim.session, claim.membership, held.makerspace, held.user,
                            Seconds(claim.deadline.value), devices.generation, Seconds(claim.deadline.value));
      var access := refresh.(kind := Access, jti := accessJti, expires := accessExpires);
      outstanding := outstanding[j := held.user];
      signed := signed + {refresh, access};
      return true;
    }

    /** Consume one refresh identifier and mint its only replacement; a refused mint undoes both. */
    method RotateClaimRefresh(token: Bearer, now: Time, mintAt: Time, allowed: bool,
                              j: D.Jti, accessJti: D.Jti, accessExpires: int) returns (verdict: RefreshVerdict)
      modifies this`outstanding, this`signed, devices`barred
      ensures verdict == RefreshVerdictOn(old(Contents()), old(Devices()), token, now, mintAt, allowed)
      ensures Devices() == if verdict.Rotated? then old(Devices()).(barred := old(devices.barred) + {token.jti}) else old(Devices())
      ensures verdict != Rotated ==> Contents() == old(Contents())
      ensures verdict == Rotated ==>
                var c := SessionOf(old(Contents()), old(Devices()), token, now);
                c.Some? && Contents() == MintedDesk(old(Contents()), old(Devices()), c.value, j, accessJti, accessExpires)
    {
      if !Verified(Contents(), devices.Contents(), token, Refresh, now) || token.jti !in outstanding {
        return BadToken;
      }
      var row := SessionOf(Contents(), devices.Contents(), token, now);
      if row.None? {
        return NoSession;
      }
      var saved := devices.barred;
      devices.barred := devices.barred + {token.jti};
      var minted := TokensForClaim(row.value, mintAt, allowed, j, accessJti, accessExpires);
      if !minted {
        devices.barred := saved;
        return MintRefused;
      }
      return Rotated;
    }

    /** Turn a walk-in record into an account, ending every bearer it had; any failure undoes all. */
    method TransitionWalkInToAccount(u: UserId, admitted: set<MakerspaceId>, hooks: seq<Hook>, failed: bool,
                                     password: bool, now: Time) returns (outcome: TransitionOutcome)
      modifies this`people, this`claims
      modifies devices`families, devices`grants, devices`tokens, devices`barred
      ensures outcome == TransitionOutcomeFor(old(Contents()), u, admitted, failed)
      ensures Contents() == if outcome.Transitioned? then TransitionedDesk(old(Contents()), u, hooks, password, now) else old(Contents())
      ensures Devices() == if outcome.Transitioned?
                           then D.AccountRevoked(old(Devices()), u, OutstandingOf(old(Contents()), u), now) else old(Devices())
    {
      if u !in people {
        return NoUser;
      }
      if !(MakerspacesOf(Contents(), u) <= admitted) {
        return ScopeChanged;
      }
      if !people[u].walkIn {
        return NotWalkIn;
      }
      if failed {
        return HookFailed;
      }
      EndClaims(u, hooks, password, now);
      assert OutstandingOf(Contents(), u) == OutstandingOf(old(Contents()), u);
      devices.BlacklistOutstandingTokens(u, OutstandingOf(Contents(), u), now);
      return Transitioned;
    }

    method EndClaims(u: UserId, hooks: seq<Hook>, password: bool, now: Time)
      requires u in people
      modifies this`people, this`claims
      ensures Contents() == TransitionedDesk(old(Contents()), u, hooks, password, now)
    {
      people := people[u := people[u].(walkIn := false)];
      assert StandingClaimsOf(Contents(), u) == StandingClaimsOf(old(Contents()), u);
      var ran := RunHooks(u, hooks, now);
      if password {
        people := people[u := people[u].(usablePassword := true)];
      }
    }

    method RunHooks(u: UserId, hooks: seq<Hook>, now: Time) returns (ran: nat)
      modifies this`claims
      ensures claims == if ClaimState in hooks then Revoked(old(claims), StandingClaimsOf(old(Contents()), u), now) else old(claims)
    {
      ran := 0;
      while ran < |hooks|
        invariant ran <= |hooks|
        invariant claims == if ClaimState in hooks[..ran]
                            then Revoked(old(claims), StandingClaimsOf(old(Contents()), u), now) else old(claims)
      {
        if hooks[ran] == ClaimState {
          if ClaimState in hooks[..ran] {
            NoneStanding(old(Contents()), u, now);
          }
          RevokeLockedClaims(StandingClaimsOf(Contents(), u), now);
        }
        assert hooks[..ran + 1] == hooks[..ran] + [hooks[ran]];
        ran := ran + 1;
      }
      assert hooks[..ran] == hooks;
    }
  }

  lemma NoneStanding(k: Desk, u: UserId, at: Time)
    ensures var once := k.(claims := Revoked(k.claims, StandingClaimsOf(k, u), at));
            StandingClaimsOf(once, u) == {} && Revoked(once.claims, {}, at) == once.claims
  {
    var once := k.(claims := Revoked(k.claims, StandingClaimsOf(k, u), at));
    RevokeNothing(once.claims, at);
  }

  // ---- The hook registry -----------------------------------------------------------------------

  datatype RegistryCall = Register(name: string, hook: Hook) | Unregister(name: string)

  datatype RegistryError = Unnamed | Taken

  class HookRegistry {
    var hooks: map<string, Hook>

    constructor ()
      ensures hooks == map[]
    {
      hooks := map[];
    }

    method RegisterHook(name: string, hook: Hook) returns (refused: Option<RegistryError>)
      modifies this
      ensures refused == RegistryRefusal(old(hooks), name, hook)
      ensures hooks == RegistryAfter(old(hooks), Register(name, hook))
    {
      if name == "" {
        return Some(Unnamed);
      }
      if name in hooks && hooks[name] != hook {
        return Some(Taken);
      }
      hooks := hooks[name := hook];
      return None;
    }

    method UnregisterHook(name: string)
      modifies this
      ensures hooks == RegistryAfter(old(hooks), Unregister(name))
    {
      hooks := hooks - {name};
    }
  }

  function RegistryRefusal(hooks: map<string, Hook>, name: string, hook: Hook): Option<RegistryError> {
    if name == "" then Some(Unnamed) else if name in hooks && hooks[name] != hook then Some(Taken) else None
  }

  function RegistryAfter(hooks: map<string, Hook>, call: RegistryCall): map<string, Hook> {
    match call
    case Register(name, hook) => if RegistryRefusal(hooks, name, hook).Some? then hooks else hooks[name := hook]
    case Unregister(name) => hooks - {name}
  }

  function RegistryAfterAll(hooks: map<string, Hook>, calls: seq<RegistryCall>): map<string, Hook>
    decreases |calls|
  {
    if calls == [] then hooks else RegistryAfterAll(RegistryAfter(hooks, calls[0]), calls[1..])
  }

  /** A hook is registered exactly under a name of its own; nothing else about the registry changes. */
  lemma RegisteredExactly(hooks: map<string, Hook>, name: string, hook: Hook)
    ensures var after := RegistryAfter(hooks, Register(name, hook));
            && (RegistryRefusal(hooks, name, hook).None? <==> name != "" && (name in hooks ==> hooks[name] == hook))
            && (RegistryRefusal(hooks, name, hook).None? ==> name in after && after[name] == hook)
            && (RegistryRefusal(hooks, name, hook).Some? ==> after == hooks)
            && (forall other | other != name :: other in after <==> other in hooks)
            && (forall other | other != name && other in hooks :: after[other] == hooks[other])
    ensures RegistryAfter(hooks, Unregister(name)) == hooks - {name}
  {}

  /** What a sequence of calls leaves is what its calls leave one after another. */
  lemma {:induction false} RegistryInTurn(hooks: map<string, Hook>, calls: seq<RegistryCall>, last: RegistryCall)
    ensures RegistryAfterAll(hooks, []) == hooks
    ensures RegistryAfterAll(hooks, calls + [last]) == RegistryAfter(RegistryAfterAll(hooks, calls), last)
    decreases |calls|
  {
    if calls == [] {
      assert calls + [last] == [last] && [last][1..] == [];
    } else {
      RegistryInTurn(RegistryAfter(hooks, calls[0]), calls[1..], last);
      assert (calls + [last])[1..] == calls[1..] + [last];
    }
  }

  /** Once registered, the claim hook is displaced by nothing but its own removal. */
  lemma {:induction false} ClaimHookStays(hooks: map<string, Hook>, calls: seq<RegistryCall>)
    requires CLAIM_HOOK in hooks && hooks[CLAIM_HOOK] == ClaimState
    requires forall i | 0 <= i < |calls| :: calls[i] != Unregister(CLAIM_HOOK)
    ensures CLAIM_HOOK in RegistryAfterAll(hooks, calls)
    ensures RegistryAfterAll(hooks, calls)[CLAIM_HOOK] == ClaimState
    decreases |calls|
  {
    if calls != [] {
      ClaimHookStays(RegistryAfter(hooks, calls[0]), calls[1..]);
    }
  }
}
