/** Native-device authority: registrations issue grants, grants own refresh families, a family is a
    chain of refresh tokens each of which may be exchanged once.

    `Store` holds the rows; each service is a function on it, and the methods of `DeviceAuthority`
    are proved to apply exactly that function. What the services guarantee over whole runs is
    proved in DeviceFamilyRuns. */
module DeviceFamilies {
  import opened Common

  type Time = int
  type UserId = nat
  type RegistrationId = nat
  type GrantId = nat
  type FamilyId = nat
  type Jti = nat

  datatype Approval = Pending | Approved | Withdrawn

  datatype User = User(dumpStub: bool, active: bool, accessActive: bool)
  {
    predicate MayRefresh() { !dumpStub && active && accessActive }
  }

  datatype Grant = Grant(registration: RegistrationId, user: UserId, active: bool, revokedAt: Option<Time>)

  datatype Family = Family(grant: GrantId, user: UserId, revokedAt: Option<Time>, reuseAt: Option<Time>)

  /** A signed refresh token: what its claims say. */
  datatype Raw = Raw(kind: string, jti: Option<Jti>, family: Option<FamilyId>, grant: Option<GrantId>,
                     expires: Time, generation: nat)

  /** `fingerprint` is an ideal digest of the signed token, so it is the token itself. */
  datatype Token = Token(family: FamilyId, fingerprint: Raw, rotatedAt: Option<Time>, blacklistedAt: Option<Time>)

  datatype Store = Store(
    users: map<UserId, User>,
    registrations: map<RegistrationId, Approval>,
    grants: map<GrantId, Grant>,
    families: map<FamilyId, Family>,
    tokens: map<Jti, Token>,
    barred: set<Jti>,            // the token library's own blacklist
    generation: nat)             // tokens of another deployment generation are void

  predicate Unspent(t: Token) {
    t.rotatedAt.None? && t.blacklistedAt.None?
  }

  // ---- Revocation --------------------------------------------------------------------------

  function TokensOf(s: Store, f: FamilyId): set<Jti> {
    set j | j in s.tokens && s.tokens[j].family == f
  }

  function Stamped(tokens: map<Jti, Token>, f: FamilyId, at: Time): map<Jti, Token> {
    map j | j in tokens ::
      if tokens[j].family == f then tokens[j].(blacklistedAt := Some(at)) else tokens[j]
  }

  function FamilyBarred(s: Store, f: FamilyId, reuse: bool, at: Time): Store
    requires f in s.families
  {
    var family := s.families[f];
    s.(families := s.families[f := family.(revokedAt := Some(at),
                                           reuseAt := if reuse then Some(at) else family.reuseAt)],
       tokens := Stamped(s.tokens, f, at),
       barred := s.barred + TokensOf(s, f))
  }

  function GrantEnded(s: Store, g: GrantId, at: Time): Store {
    if g in s.grants then s.(grants := s.grants[g := s.grants[g].(active := false, revokedAt := Some(at))]) else s
  }

  function Barred(s: Store, f: FamilyId, revokeGrant: bool, reuse: bool, at: Time): Store
    requires f in s.families
  {
    var barred := FamilyBarred(s, f, reuse, at);
    if revokeGrant then GrantEnded(barred, s.families[f].grant, at) else barred
  }

  /** The unrevoked families of some grants. */
  function OpenFamilies(s: Store, grants: set<GrantId>): set<FamilyId> {
    set f | f in s.families && s.families[f].grant in grants && s.families[f].revokedAt.None?
  }

  /** Several families barred, in whatever order. */
  function FamiliesBarred(s: Store, ending: set<FamilyId>, at: Time): Store {
    s.(families := map f | f in s.families ::
         if f in ending then s.families[f].(revokedAt := Some(at)) else s.families[f],
       tokens := map j | j in s.tokens ::
         if s.tokens[j].family in ending then s.tokens[j].(blacklistedAt := Some(at)) else s.tokens[j],
       barred := s.barred + set j | j in s.tokens && s.tokens[j].family in ending)
  }

  function GrantsEnded(s: Store, ending: set<GrantId>, at: Time): Store {
    s.(grants := map g | g in s.grants ::
         if g in ending then s.grants[g].(active := false, revokedAt := Some(at)) else s.grants[g])
  }

  /** Several grants revoked together with the families they still have open. */
  function GrantsRevoked(s: Store, ending: set<GrantId>, at: Time): Store {
    FamiliesBarred(GrantsEnded(s, ending, at), OpenFamilies(s, ending), at)
  }

  function ActiveGrantsOf(s: Store, u: UserId): set<GrantId> {
    set g | g in s.grants && s.grants[g].user == u && s.grants[g].active
  }

  /** The refresh identifiers the token library knows for an account's devices. */
  function DeviceTokensOf(s: Store, u: UserId): set<Jti> {
    set j | j in s.tokens && s.tokens[j].family in s.families && s.families[s.tokens[j].family].user == u
  }

  /** Every credential a password change invalidates; `others` are the account's other tokens. */
  function AccountRevoked(s: Store, u: UserId, others: set<Jti>, at: Time): Store {
    var blacklisted := s.(barred := s.barred + DeviceTokensOf(s, u) + others);
    GrantsRevoked(blacklisted, ActiveGrantsOf(s, u), at)
  }

  lemma BarOneMore(s: Store, ending: set<FamilyId>, f: FamilyId, at: Time)
    requires f in s.families
    ensures FamiliesBarred(s, ending + {f}, at) == FamilyBarred(FamiliesBarred(s, ending, at), f, false, at)
  {
    var one, all := FamilyBarred(FamiliesBarred(s, ending, at), f, false, at), FamiliesBarred(s, ending + {f}, at);
    assert all.families == one.families;
    assert all.tokens == one.tokens;
    assert all.barred == one.barred;
  }

  lemma BarNone(s: Store, at: Time)
    ensures FamiliesBarred(s, {}, at) == s && GrantsRevoked(s, {}, at) == s
  {
    assert FamiliesBarred(s, {}, at).barred == s.barred;
    assert FamiliesBarred(s, {}, at).tokens == s.tokens;
    assert FamiliesBarred(s, {}, at).families == s.families;
    assert GrantsEnded(s, {}, at).grants == s.grants;
  }

  /** Grants may be revoked one after the other or all at once. */
  lemma RevokeOneMore(s: Store, ending: set<GrantId>, g: GrantId, at: Time)
    ensures GrantsRevoked(s, ending + {g}, at) == GrantsRevoked(GrantsRevoked(s, ending, at), {g}, at)
  {
    var mid := GrantsRevoked(s, ending, at);
    var one, all := GrantsRevoked(mid, {g}, at), GrantsRevoked(s, ending + {g}, at);
    assert OpenFamilies(s, ending + {g}) == OpenFamilies(s, ending) + OpenFamilies(mid, {g});
    assert all.grants == one.grants;
    assert all.families == one.families;
    assert all.tokens == one.tokens;
    assert all.barred == one.barred;
  }

  lemma RevokeOne(s: Store, g: GrantId, at: Time)
    ensures GrantsRevoked(s, {g}, at) == FamiliesBarred(GrantEnded(s, g, at), OpenFamilies(s, {g}), at)
  {
    assert GrantsEnded(s, {g}, at).grants == GrantEnded(s, g, at).grants;
  }

  predicate IssuedUnder(s: Store, r: RegistrationId, g: GrantId) {
    g in s.grants && s.grants[g].registration == r
  }

  function ActiveUnder(s: Store, r: RegistrationId): set<GrantId> {
    set g | g in s.grants && IssuedUnder(s, r, g) && s.grants[g].active
  }

  /** A registration is withdrawn and the authority it issued is settled for good. */
  function RegistrationRevoked(s: Store, r: RegistrationId, at: Time): Store {
    if r !in s.registrations then s
    else
      var ends := ActiveUnder(s, r);
      s.(families := map f | f in s.families ::
           if s.families[f].grant in ends then s.families[f].(revokedAt := Some(at)) else s.families[f],
         grants := map g | g in s.grants ::
           if g in ends then s.grants[g].(active := false, revokedAt := Some(at)) else s.grants[g],
         registrations := s.registrations[r := Withdrawn])
  }

  // ---- Issue and rotation ------------------------------------------------------------------

  function Minted(s: Store, f: FamilyId, g: GrantId, j: Jti, expires: Time): Raw {
    Raw("refresh", Some(j), Some(f), Some(g), expires, s.generation)
  }

  function Recorded(s: Store, f: FamilyId, raw: Raw, j: Jti): Store {
    s.(tokens := s.tokens[j := Token(f, raw, None, None)])
  }

  predicate Enrollable(s: Store, r: RegistrationId, u: UserId, allowed: bool) {
    && allowed
    && r in s.registrations && s.registrations[r] == Approved
    && u in s.users && s.users[u].MayRefresh()
  }

  function Enrolled(s: Store, r: RegistrationId, u: UserId, g: GrantId, f: FamilyId, j: Jti, expires: Time): Store {
    var raw := Minted(s, f, g, j, expires);
    Recorded(s.(grants := s.grants[g := Grant(r, u, true, None)],
                families := s.families[f := Family(g, u, None, None)]), f, raw, j)
  }

  datatype Verdict = Invalid | Reuse | Ended | Suspended | RolledBack | Exchanged

  /** The row a presented token leads to: known identifier, same bytes, same family. */
  function RowOf(s: Store, raw: Raw, at: Time): (row: Option<Jti>)
    ensures row.Some? ==> raw.jti == row && row.value in s.tokens && raw.expires > at
  {
    if raw.expires > at && raw.kind == "refresh" && raw.jti.Some? && raw.family.Some? && raw.grant.Some?
       && raw.jti.value in s.tokens
       && s.tokens[raw.jti.value].fingerprint == raw
       && s.tokens[raw.jti.value].family == raw.family.value
    then raw.jti else None
  }

  /** Foreign keys hold. */
  predicate Linked(s: Store) {
    && (forall j | j in s.tokens :: s.tokens[j].family in s.families)
    && (forall f | f in s.families :: s.families[f].grant in s.grants && s.families[f].user in s.users)
    && (forall g | g in s.grants :: s.grants[g].registration in s.registrations && s.grants[g].user in s.users)
  }

  function VerdictOn(s: Store, raw: Raw, at: Time, allowed: bool): Verdict
    requires Linked(s)
  {
    match RowOf(s, raw, at)
    case None => Invalid
    case Some(j) =>
      var token := s.tokens[j];
      var family := s.families[token.family];
      var grant := s.grants[family.grant];
      if !Unspent(token) || family.revokedAt.Some? || raw.grant != Some(family.grant) then Reuse
      else if !s.users[family.user].MayRefresh() then Ended
      else if !grant.active || s.registrations[grant.registration] != Approved then Suspended
      else if j in s.barred then Reuse
      else if raw.generation != s.generation || !allowed then RolledBack
      else Exchanged
  }

  function Exchange(s: Store, j: Jti, next: Jti, expires: Time, at: Time): Store
    requires Linked(s) && j in s.tokens
  {
    var token := s.tokens[j];
    var spent := s.(tokens := s.tokens[j := token.(rotatedAt := Some(at), blacklistedAt := Some(at))],
                    barred := s.barred + {j});
    Recorded(spent, token.family, Minted(s, token.family, s.families[token.family].grant, next, expires), next)
  }

  function Rotated(s: Store, raw: Raw, at: Time, allowed: bool, next: Jti, expires: Time): Store
    requires Linked(s)
  {
    match VerdictOn(s, raw, at, allowed)
    case Invalid => s
    case RolledBack => s
    case Reuse => Barred(s, s.tokens[raw.jti.value].family, true, true, at)
    case Ended => Barred(s, s.tokens[raw.jti.value].family, true, false, at)
    case Suspended => Barred(s, s.tokens[raw.jti.value].family, false, false, at)
    case Exchanged => Exchange(s, raw.jti.value, next, expires, at)
  }

  /** A device access token is honoured. */
  predicate Accepts(s: Store, g: GrantId, f: FamilyId, u: UserId) {
    && g in s.grants && s.grants[g].user == u && s.grants[g].active
    && s.grants[g].registration in s.registrations && s.registrations[s.grants[g].registration] == Approved
    && u in s.users && s.users[u].active && s.users[u].accessActive
    && f in s.families && s.families[f].grant == g && s.families[f].user == u && s.families[f].revokedAt.None?
  }

  class DeviceAuthority {
    var users: map<UserId, User>
    var registrations: map<RegistrationId, Approval>
    var grants: map<GrantId, Grant>
    var families: map<FamilyId, Family>
    var tokens: map<Jti, Token>
    var barred: set<Jti>
    var generation: nat

    function Contents(): Store reads this {
      Store(users, registrations, grants, families, tokens, barred, generation)
    }

    constructor (users: map<UserId, User>, registrations: map<RegistrationId, Approval>, generation: nat)
      ensures Contents() == Store(users, registrations, map[], map[], map[], {}, generation)
      ensures Linked(Contents())
    {
      this.users, this.registrations, this.generation := users, registrations, generation;
      grants, families, tokens, barred := map[], map[], map[], {};
    }

    /** Mint and record a family's next refresh token. */
    method IssueDeviceTokenPair(f: FamilyId, g: GrantId, j: Jti, expires: Time, allowed: bool) returns (raw: Option<Raw>)
      modifies this`tokens
      ensures raw == if allowed then Some(Minted(old(Contents()), f, g, j, expires)) else None
      ensures Contents() == if allowed then Recorded(old(Contents()), f, raw.value, j) else old(Contents())
    {
      if !allowed {
        return None;
      }
      var refresh := Raw("refresh", Some(j), Some(f), Some(g), expires, generation);
      tokens := tokens[j := Token(f, refresh, None, None)];
      return Some(refresh);
    }

    /** First session of a device; a refused issue rolls the new grant and family back. */
    method Enrol(r: RegistrationId, u: UserId, g: GrantId, f: FamilyId, j: Jti, expires: Time, allowed: bool)
      returns (raw: Option<Raw>)
      modifies this`grants, this`families, this`tokens
      ensures raw == if Enrollable(old(Contents()), r, u, allowed)
                     then Some(Minted(old(Contents()), f, g, j, expires)) else None
      ensures Contents() == if raw.Some? then Enrolled(old(Contents()), r, u, g, f, j, expires) else old(Contents())
    {
      if u !in users || !users[u].MayRefresh() || r !in registrations || registrations[r] != Approved {
        return None;
      }
      var savedGrants, savedFamilies := grants, families;
      grants := grants[g := Grant(r, u, true, None)];
      families := families[f := Family(g, u, None, None)];
      raw := IssueDeviceTokenPair(f, g, j, expires, allowed);
      if raw.None? {
        grants, families := savedGrants, savedFamilies;
      }
    }

    method BlacklistTokens(jtis: set<Jti>)
      modifies this`barred
      ensures barred == old(barred) + jtis
      ensures Contents() == old(Contents()).(barred := barred)
    {
      var todo := jtis;
      while todo != {}
        invariant todo <= jtis
        invariant barred == old(barred) + (jtis - todo)
        decreases |todo|
      {
        var j :| j in todo;
        barred, todo := barred + {j}, todo - {j};
      }
      assert jtis - todo == jtis;
    }

    method BlacklistDeviceFamily(f: FamilyId, revokeGrant: bool, reuse: bool, now: Time)
      requires f in families
      modifies this`families, this`grants, this`tokens, this`barred
      ensures Contents() == Barred(old(Contents()), f, revokeGrant, reuse, now)
    {
      var family := families[f].(revokedAt := Some(now));
      if reuse {
        family := family.(reuseAt := Some(now));
      }
      families := families[f := family];
      BlacklistTokens(TokensOf(Contents(), f));
      tokens := Stamped(tokens, f, now);
      ghost var barredOnly := FamilyBarred(old(Contents()), f, reuse, now);
      assert families == barredOnly.families;
      assert barred == barredOnly.barred by {
        assert TokensOf(Contents().(tokens := old(tokens)), f) == TokensOf(old(Contents()), f);
      }
      assert Contents() == barredOnly;
      if revokeGrant && family.grant in grants {
        grants := grants[family.grant := grants[family.grant].(active := false, revokedAt := Some(now))];
      }
    }

    method RevokeDeviceGrant(g: GrantId, now: Time)
      modifies this`families, this`grants, this`tokens, this`barred
      ensures Contents() == GrantsRevoked(old(Contents()), {g}, now)
    {
      if g in grants {
        grants := grants[g := grants[g].(active := false, revokedAt := Some(now))];
      }
      ghost var ended := Contents();
      var open := OpenFamilies(Contents(), {g});
      var todo := open;
      BarNone(ended, now);
      while todo != {}
        invariant todo <= open
        invariant Contents() == FamiliesBarred(ended, open - todo, now)
        decreases |todo|
      {
        var f :| f in todo;
        BarOneMore(ended, open - todo, f, now);
        assert open - (todo - {f}) == open - todo + {f};
        BlacklistDeviceFamily(f, false, false, now);
        todo := todo - {f};
      }
      assert open - todo == open;
      RevokeOne(old(Contents()), g, now);
    }

    method RevokeDeviceGrants(ending: set<GrantId>, now: Time)
      modifies this`families, this`grants, this`tokens, this`barred
      ensures Contents() == GrantsRevoked(old(Contents()), ending, now)
    {
      var todo := ending;
      BarNone(Contents(), now);
      assert ending - todo == {};
      while todo != {}
        invariant todo <= ending
        invariant Contents() == GrantsRevoked(old(Contents()), ending - todo, now)
        decreases |todo|
      {
        var g :| g in todo;
        RevokeOneMore(old(Contents()), ending - todo, g, now);
        assert ending - (todo - {g}) == ending - todo + {g};
        RevokeDeviceGrant(g, now);
        todo := todo - {g};
      }
      assert ending - todo == ending;
    }

    /** Invalidate what an account was issued before a credential change. */
    method BlacklistOutstandingTokens(u: UserId, others: set<Jti>, now: Time)
      modifies this`families, this`grants, this`tokens, this`barred
      ensures Contents() == AccountRevoked(old(Contents()), u, others, now)
    {
      BlacklistTokens(DeviceTokensOf(Contents(), u) + others);
      assert barred == old(barred) + DeviceTokensOf(old(Contents()), u) + others;
      assert ActiveGrantsOf(Contents(), u) == ActiveGrantsOf(old(Contents()), u);
      RevokeDeviceGrants(ActiveGrantsOf(Contents(), u), now);
    }

    method RevokeRegistration(r: RegistrationId, now: Time) returns (found: bool)
      modifies this`families, this`grants, this`registrations
      ensures found == (r in old(registrations))
      ensures Contents() == RegistrationRevoked(old(Contents()), r, now)
    {
      if r !in registrations {
        return false;
      }
      var ends := ActiveUnder(Contents(), r);
      families := map f | f in families ::
        if families[f].grant in ends then families[f].(revokedAt := Some(now)) else families[f];
      grants := map g | g in grants ::
        if g in ends then grants[g].(active := false, revokedAt := Some(now)) else grants[g];
      registrations := registrations[r := Withdrawn];
      return true;
    }

    /** Exchange a refresh token for its successor, or end what a spent one belonged to. */
    method RotateDeviceRefresh(raw: Raw, now: Time, allowed: bool, next: Jti, expires: Time) returns (verdict: Verdict)
      requires Linked(Contents())
      requires next !in tokens
      modifies this`families, this`grants, this`tokens, this`barred
      ensures verdict == VerdictOn(old(Contents()), raw, now, allowed)
      ensures Contents() == Rotated(old(Contents()), raw, now, allowed, next, expires)
    {
      if raw.expires <= now || raw.kind != "refresh" {
        return Invalid;
      }
      if raw.jti.None? || raw.family.None? || raw.grant.None? {
        return Invalid;
      }
      var j := raw.jti.value;
      if j !in tokens || tokens[j].fingerprint != raw || tokens[j].family != raw.family.value {
        return Invalid;
      }
      assert RowOf(Contents(), raw, now) == Some(j);
      var row := tokens[j];
      var family := families[row.family];
      var grant := grants[family.grant];
      var user := users[family.user];
      var unusable := row.rotatedAt.Some? || row.blacklistedAt.Some? || family.revokedAt.Some?
                      || family.grant != raw.grant.value;
      if unusable {
        BlacklistDeviceFamily(row.family, true, true, now);
        return Reuse;
      }
      if user.dumpStub || !user.active || !user.accessActive {
        BlacklistDeviceFamily(row.family, true, false, now);
        return Ended;
      }
      if !grant.active || registrations[grant.registration] != Approved {
        BlacklistDeviceFamily(row.family, false, false, now);
        return Suspended;
      }
      if j in barred {
        BlacklistDeviceFamily(row.family, true, true, now);
        return Reuse;
      }
      if raw.generation != generation {
        return RolledBack;
      }
      var issued := ConsumeAndIssue(j, now, allowed, next, expires);
      return if issued then Exchanged else RolledBack;
    }

    /** Stamp the presented token and issue its successor; a refused issue undoes the stamp. */
    method ConsumeAndIssue(j: Jti, now: Time, allowed: bool, next: Jti, expires: Time) returns (issued: bool)
      requires Linked(Contents()) && j in tokens && next !in tokens
      modifies this`tokens, this`barred
      ensures issued == allowed
      ensures Contents() == if allowed then Exchange(old(Contents()), j, next, expires, now) else old(Contents())
    {
      var savedTokens, savedBarred := tokens, barred;
      var row := tokens[j];
      barred := barred + {j};
      row := row.(rotatedAt := Some(now));
      row := row.(blacklistedAt := row.rotatedAt);
      tokens := tokens[j := row];
      var raw := IssueDeviceTokenPair(row.family, families[row.family].grant, next, expires, allowed);
      if raw.None? {
        tokens, barred := savedTokens, savedBarred;
      }
      return raw.Some?;
    }

    /** The per-request check of a device access token. */
    method Authenticate(g: GrantId, f: FamilyId, u: UserId) returns (valid: bool)
      ensures valid == Accepts(Contents(), g, f, u)
    {
      if g !in grants || grants[g].user != u {
        return false;
      }
      var grant := grants[g];
      valid := grant.active
        && grant.registration in registrations && registrations[grant.registration] == Approved
        && u in users && users[u].active && users[u].accessActive
        && f in families && families[f].grant == g && families[f].user == u && families[f].revokedAt.None?;
    }
  }
}
