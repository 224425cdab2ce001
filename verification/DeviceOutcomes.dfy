/** What each device service does to families, grants and tokens, in terms of what was issued, over
    every run of DeviceFamilyRuns. */
module DeviceOutcomes {
  import opened Common
  import opened DeviceFamilies
  import opened DeviceFamilyRuns

  // ---- Refreshing ----------------------------------------------------------------------------

  /** A refresh token this deployment issued, not expired, of a family not purged. */
  predicate Current(w: World, raw: Raw, at: Time) {
    raw in w.issued && at < raw.expires && raw.family.Some? && raw.family.value in w.store.families
  }

  /** The family is over and every token of it void; nobody else's is. */
  predicate FamilyOver(s: Store, s': Store, f: FamilyId, reuse: bool, at: Time)
    requires f in s.families
  {
    && s'.families == s.families[f := s.families[f].(revokedAt := Some(at), reuseAt := if reuse then Some(at) else s.families[f].reuseAt)]
    && s'.tokens.Keys == s.tokens.Keys
    && (forall j | j in s.tokens && s.tokens[j].family != f :: s'.tokens[j] == s.tokens[j] && (j in s'.barred <==> j in s.barred))
    && (forall j | j in s.tokens && s.tokens[j].family == f :: s'.tokens[j] == s.tokens[j].(blacklistedAt := Some(at)) && j in s'.barred)
    && s'.users == s.users && s'.registrations == s.registrations && s'.generation == s.generation
  }

  predicate GrantOver(s: Store, s': Store, g: GrantId, at: Time)
    requires g in s.grants
  {
    s'.grants == s.grants[g := s.grants[g].(active := false, revokedAt := Some(at))]
  }

  /** One token is spent and its successor issued to the same family and grant. */
  predicate Succeeded(w: World, w': World, raw: Raw, at: Time, next: Jti, expires: Time)
    requires raw.jti.Some? && raw.family.Some? && raw.grant.Some?
  {
    var (s, s') := (w.store, w'.store);
    var successor := Raw("refresh", Some(next), raw.family, raw.grant, expires, s.generation);
    && raw.jti.value in s.tokens
    && s' == s.(tokens := s'.tokens, barred := s.barred + {raw.jti.value})
    && s'.tokens == s.tokens[raw.jti.value := s.tokens[raw.jti.value].(rotatedAt := Some(at), blacklistedAt := Some(at))]
                            [next := Token(raw.family.value, successor, None, None)]
    && w'.latest == w.latest[raw.family.value := successor] && w'.issued == w.issued + {successor}
    && w'.exchanged == w.exchanged + [raw.jti.value]
  }

  /** Whatever token is presented: one not current changes nothing. A superseded one, or one of a family
      that is over, ends the family as reused, and its grant. One of an account that may not sign in
      ends both without that mark; one whose grant or registration is suspended ends the family alone.
      A void or refused one changes nothing, and the latest one is exchanged. */
  lemma RotationExactly(w: World, step: Step)
    requires Inv(w) && step.Rotate? && Enabled(w, step)
    ensures var (raw, s, s') := (step.raw, w.store, Next(w, step).store);
            if !Current(w, raw, step.at) then Next(w, step) == w
            else
              && raw.jti.Some? && raw.grant.Some? && raw.family.value in w.latest
              && var (f, g) := (raw.family.value, raw.grant.value);
                 && g == s.families[f].grant && g in s.grants && s.grants[g].registration in s.registrations && s.families[f].user in s.users
                 && var user := s.users[s.families[f].user];
                    if raw != w.latest[f] || s.families[f].revokedAt.Some? then
                      FamilyOver(s, s', f, true, step.at) && GrantOver(s, s', g, step.at)
                    else if user.dumpStub || !user.active || !user.accessActive then
                      FamilyOver(s, s', f, false, step.at) && GrantOver(s, s', g, step.at)
                    else if !s.grants[g].active || s.registrations[s.grants[g].registration] != Approved then
                      FamilyOver(s, s', f, false, step.at) && s'.grants == s.grants
                    else if raw.jti.value in s.barred then
                      FamilyOver(s, s', f, true, step.at) && GrantOver(s, s', g, step.at)
                    else if raw.generation != s.generation || !step.allowed then Next(w, step) == w
                    else Succeeded(w, Next(w, step), raw, step.at, step.next, step.expires)
  {
    var (raw, s) := (step.raw, w.store);
    if !Current(w, raw, step.at) {
      UnknownChangesNothing(w, step);
    } else {
      CurrentVerdict(w, raw, step.at, step.allowed);
      if VerdictOn(s, raw, step.at, step.allowed) == Exchanged {
        SuccessorIs(w, step);
      } else if VerdictOn(s, raw, step.at, step.allowed) in {Reuse, Ended, Suspended} {
        FamilyBarredIsOver(s, raw.family.value, VerdictOn(s, raw, step.at, step.allowed) == Reuse, step.at);
      }
    }
  }

  lemma UnknownChangesNothing(w: World, step: Step)
    requires Inv(w) && step.Rotate? && Enabled(w, step) && !Current(w, step.raw, step.at)
    ensures Next(w, step) == w
  {
    assert RowOf(w.store, step.raw, step.at).Some? ==> TokenInv(w, step.raw.jti.value);
  }

  lemma CurrentVerdict(w: World, raw: Raw, at: Time, allowed: bool)
    requires Inv(w) && Current(w, raw, at)
    ensures raw.jti.Some? && raw.grant.Some? && raw.family.value in w.latest && raw.jti.value in w.store.tokens
    ensures w.store.tokens[raw.jti.value].family == raw.family.value && w.store.families[raw.family.value].grant == raw.grant.value
    ensures var (s, f, g) := (w.store, raw.family.value, raw.grant.value);
            var user := s.users[s.families[f].user];
            VerdictOn(s, raw, at, allowed) ==
              if raw != w.latest[f] || s.families[f].revokedAt.Some? then Reuse
              else if user.dumpStub || !user.active || !user.accessActive then Ended
              else if !s.grants[g].active || s.registrations[s.grants[g].registration] != Approved then Suspended
              else if raw.jti.value in s.barred then Reuse
              else if raw.generation != s.generation || !allowed then RolledBack
              else Exchanged
  {
    assert IssuedInv(w, raw);
    assert TokenInv(w, raw.jti.value);
    assert FamilyInv(w, raw.family.value);
  }

  lemma FamilyBarredIsOver(s: Store, f: FamilyId, reuse: bool, at: Time)
    requires f in s.families
    ensures FamilyOver(s, FamilyBarred(s, f, reuse, at), f, reuse, at) && FamilyBarred(s, f, reuse, at).grants == s.grants
  {}

  lemma SuccessorIs(w: World, step: Step)
    requires Inv(w) && step.Rotate? && Enabled(w, step) && Current(w, step.raw, step.at)
    requires VerdictOn(w.store, step.raw, step.at, step.allowed) == Exchanged
    ensures step.raw.jti.Some? && step.raw.grant.Some?
    ensures Succeeded(w, Next(w, step), step.raw, step.at, step.next, step.expires)
  {
    CurrentVerdict(w, step.raw, step.at, step.allowed);
  }

  /** A family that a refresh ended, for whatever reason, is never refreshed or honoured again. */
  lemma EndedFamilyStaysEnded(w: World, steps: seq<Step>, step: Step, later: seq<Step>)
    requires Fresh(w) && Run(w, steps) && step.Rotate? && Enabled(End(w, steps), step)
    requires Run(Next(End(w, steps), step), later)
    requires Current(End(w, steps), step.raw, step.at)
    requires step.raw.family.value in Next(End(w, steps), step).store.families
    requires Next(End(w, steps), step).store.families[step.raw.family.value].revokedAt.Some?
    ensures var end := End(Next(End(w, steps), step), later);
            && Linked(end.store)
            && (forall raw: Raw, at, allowed | VerdictOn(end.store, raw, at, allowed) == Exchanged :: raw.family != step.raw.family)
            && (forall g, f, u | Accepts(end.store, g, f, u) :: f != step.raw.family.value)
  {
    Reached(w, steps);
    var after := Next(End(w, steps), step);
    StepKeeps(End(w, steps), step);
    var f := step.raw.family.value;
    assert FamilyInv(after, f);
    NeverReopens(after, later, f, 0);
    var end := End(after, later);
    forall raw: Raw, at, allowed | VerdictOn(end.store, raw, at, allowed) == Exchanged ensures raw.family != Some(f) {
      assert TokenInv(end, raw.jti.value);
    }
  }

  // ---- Enrolling -----------------------------------------------------------------------------

  /** A device is enrolled exactly under an approved registration, for an account that may sign in, if
      its first token may be issued; it then is honoured, and its first token may be exchanged. */
  lemma EnrolledExactly(w: World, step: Step)
    requires Inv(w) && step.Enrol? && Enabled(w, step)
    ensures var (s, w') := (w.store, Next(w, step));
            if step.allowed && step.r in s.registrations && s.registrations[step.r] == Approved
               && step.u in s.users && s.users[step.u].active && s.users[step.u].accessActive && !s.users[step.u].dumpStub
            then
              && Accepts(w'.store, step.g, step.f, step.u)
              && step.f in w'.latest && w'.latest[step.f] == Raw("refresh", Some(step.j), Some(step.f), Some(step.g), step.expires, s.generation)
              && w'.store.users == s.users && w'.store.registrations == s.registrations
              && (forall at | at < step.expires && step.j !in s.barred ::
                    Linked(w'.store) && VerdictOn(w'.store, w'.latest[step.f], at, true) == Exchanged)
              && (forall g | g in s.grants :: g in w'.store.grants && w'.store.grants[g] == s.grants[g])
              && (forall f | f in s.families :: f in w'.store.families && w'.store.families[f] == s.families[f])
            else w' == w
  {
    EnrolKeeps(w, step);
  }

  /** A blocked account's devices are not honoured. */
  lemma BlockedIsNotHonoured(s: Store, g: GrantId, f: FamilyId, u: UserId)
    requires u in s.users ==> !s.users[u].active || !s.users[u].accessActive
    ensures !Accepts(s, g, f, u)
  {}

  // ---- Revoking ------------------------------------------------------------------------------

  /** The account's active grants. */
  predicate Ending(s: Store, u: UserId, g: GrantId) {
    g in s.grants && s.grants[g].user == u && s.grants[g].active
  }

  /** The families they still have open. */
  predicate Closing(s: Store, u: UserId, f: FamilyId) {
    f in s.families && s.families[f].revokedAt.None? && Ending(s, u, s.families[f].grant)
  }

  /** After an account's tokens are blacklisted exactly its active grants have ended and exactly their
      open families are over, with all their tokens; beyond those tokens, exactly what was known of the
      account is barred. */
  lemma AccountIsCutOffExactly(w: World, u: UserId, others: set<Jti>, at: Time)
    requires Inv(w)
    ensures var (s, s') := (w.store, AccountRevoked(w.store, u, others, at));
            && s'.grants.Keys == s.grants.Keys && s'.families.Keys == s.families.Keys && s'.tokens.Keys == s.tokens.Keys
            && s'.users == s.users && s'.registrations == s.registrations && s'.generation == s.generation
            && (forall g | g in s.grants ::
                  s'.grants[g] == if Ending(s, u, g) then s.grants[g].(active := false, revokedAt := Some(at)) else s.grants[g])
            && (forall f | f in s.families ::
                  s'.families[f] == if Closing(s, u, f) then s.families[f].(revokedAt := Some(at)) else s.families[f])
            && (forall j | j in s.tokens ::
                  s'.tokens[j] == if Closing(s, u, s.tokens[j].family) then s.tokens[j].(blacklistedAt := Some(at)) else s.tokens[j])
            && (forall j :: j in s'.barred <==>
                  j in s.barred || j in others || (j in s.tokens && s.families[s.tokens[j].family].user == u))
  {
    var (s, s') := (w.store, AccountRevoked(w.store, u, others, at));
    var (grants, families) := (ActiveGrantsOf(s, u), OpenFamilies(s, ActiveGrantsOf(s, u)));
    forall g ensures g in grants <==> Ending(s, u, g) {}
    forall f ensures f in families <==> Closing(s, u, f) {}
    CutOffRows(s, u, others, at);
    forall j | j in s.tokens && s.tokens[j].family in families ensures s.families[s.tokens[j].family].user == u {
      assert FamilyInv(w, s.tokens[j].family);
    }
  }

  lemma CutOffRows(s: Store, u: UserId, others: set<Jti>, at: Time)
    requires Linked(s)
    ensures var (s', grants, families) := (AccountRevoked(s, u, others, at), ActiveGrantsOf(s, u), OpenFamilies(s, ActiveGrantsOf(s, u)));
            && s'.grants.Keys == s.grants.Keys && s'.families.Keys == s.families.Keys && s'.tokens.Keys == s.tokens.Keys
            && s'.users == s.users && s'.registrations == s.registrations && s'.generation == s.generation
            && (forall g | g in s.grants :: s'.grants[g] == if g in grants then s.grants[g].(active := false, revokedAt := Some(at)) else s.grants[g])
            && (forall f | f in s.families :: s'.families[f] == if f in families then s.families[f].(revokedAt := Some(at)) else s.families[f])
            && (forall j | j in s.tokens ::
                  s'.tokens[j] == if s.tokens[j].family in families then s.tokens[j].(blacklistedAt := Some(at)) else s.tokens[j])
            && (forall j :: j in s'.barred <==>
                  j in s.barred || j in others || (j in s.tokens && s.families[s.tokens[j].family].user == u)
                  || (j in s.tokens && s.tokens[j].family in families))
  {}

  /** So the account has no active grant left, none of its devices is honoured, and every other
      account's still is. */
  lemma AccountIsCutOff(w: World, u: UserId, others: set<Jti>, at: Time)
    requires Inv(w)
    ensures var (s, s') := (w.store, AccountRevoked(w.store, u, others, at));
            && (forall g | g in s'.grants && s'.grants[g].user == u :: !s'.grants[g].active)
            && (forall g, f, v :: Accepts(s', g, f, v) <==> Accepts(s, g, f, v) && v != u)
  {
    AccountIsCutOffExactly(w, u, others, at);
  }

  /** Revoking a registration ends exactly the active grants issued under it and their families, whose
      tokens are left as they are. */
  lemma RegistrationIsCutOffExactly(w: World, r: RegistrationId, at: Time)
    requires Inv(w)
    ensures var (s, s') := (w.store, RegistrationRevoked(w.store, r, at));
            if r !in s.registrations then s' == s
            else
              && s' == s.(registrations := s.registrations[r := Withdrawn], grants := s'.grants, families := s'.families)
              && s'.grants.Keys == s.grants.Keys && s'.families.Keys == s.families.Keys
              && (forall g | g in s.grants ::
                    s'.grants[g] == if s.grants[g].registration == r && s.grants[g].active
                                    then s.grants[g].(active := false, revokedAt := Some(at)) else s.grants[g])
              && (forall f | f in s.families ::
                    var grant := s.grants[s.families[f].grant];
                    s'.families[f] == if grant.registration == r && grant.active
                                      then s.families[f].(revokedAt := Some(at)) else s.families[f])
  {}

  /** So every other device is honoured as before, and none of these. */
  lemma RegistrationIsCutOff(w: World, r: RegistrationId, at: Time)
    requires Inv(w) && r in w.store.registrations
    ensures var (s, s') := (w.store, RegistrationRevoked(w.store, r, at));
            forall g, f, u :: Accepts(s', g, f, u) <==> Accepts(s, g, f, u) && s.grants[g].registration != r
  {
    RegistrationIsCutOffExactly(w, r, at);
  }
}
