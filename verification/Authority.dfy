/** Who may do what, stated on the raw tables: which stored rows, of whom, confer an action in a
    makerspace. Every computation of Rbac is proved to answer exactly this. */
module Authority {
  import opened Common
  import opened ActionClosure
  import opened Rbac

  /** Holding `grant` is enough for `action`. */
  predicate Suffices(grant: Action, action: Action) {
    || grant == action
    || (grant.ManageMachines? && (action.ManagePrinting? || action.CollectServiceRequest?))
  }

  /** A local role may list any declared action but transferring stock and managing staff. */
  predicate Listable(grant: Action) {
    !grant.Undeclared? && !grant.TransferStock? && !grant.ManageStaff?
  }

  /** An active membership of the user in the makerspace whose role confers the action. */
  ghost predicate LocallyGranted(db: Database, user: Id, m: Id, action: Action) {
    exists pk | pk in db.memberships ::
      var row := db.memberships[pk];
      && row.user == user && row.makerspace == m && row.active
      && match row.assignedRole
         case Some(role) =>
           && role.makerspace == m && role.granted.JList?
           && exists g :: JString(g) in role.granted.items && Listable(g) && Suffices(g, action)
         case None =>
           && row.role in MEMBERSHIP_ROLE_ACTIONS
           && exists g | g in MEMBERSHIP_ROLE_ACTIONS[row.role] :: Suffices(g, action)
  }

  /** An active grant of the user by an active organization linked to the makerspace, which is
      servable and not hidden, listing an action that is enough. */
  ghost predicate OrganizationGranted(db: Database, user: Id, m: Id, action: Action) {
    && m in db.makerspaces && db.makerspaces[m].servable && db.makerspaces[m].superadminAccess
    && exists pk, g :: GrantsThrough(db, user, m, action, pk, g)
  }

  predicate GrantsThrough(db: Database, user: Id, m: Id, action: Action, pk: Id, grant: Action) {
    && pk in db.orgMemberships && Listable(grant) && !grant.ManageMachines? && Suffices(grant, action)
    && var row := db.orgMemberships[pk];
       && row.user == user && row.active
       && row.organization in db.organizations && db.organizations[row.organization].active
       && m in db.organizations[row.organization].links
       && row.granted.JList? && JString(grant) in row.granted.items
  }

  ghost predicate Authorised(db: Database, actor: Actor, action: Action, m: Id)
    requires m in db.makerspaces
  {
    && actor.Some? && actor.value.authenticated && !actor.value.dumpStub && db.makerspaces[m].servable
    && if actor.value.superuser || actor.value.superadminRole
       then db.makerspaces[m].superadminAccess || LocallyGranted(db, actor.value.id, m, action)
       else LocallyGranted(db, actor.value.id, m, action) || OrganizationGranted(db, actor.value.id, m, action)
  }

  // ---- Expansion ---------------------------------------------------------------------------

  lemma ExpandedExactly(granted: set<Action>, action: Action)
    ensures action in Expand(IMPLIED_ACTIONS, granted) <==> exists g | g in granted :: Suffices(g, action)
  {
    ExpandIsLeast(IMPLIED_ACTIONS, granted);
    var reach := Expand(IMPLIED_ACTIONS, granted);
    var named := granted + if ManageMachines in granted then {ManagePrinting, CollectServiceRequest} else {};
    assert Closed(IMPLIED_ACTIONS, named);
    assert reach <= named;
    if g :| g in granted && Suffices(g, action) && g != action {
      assert action in Implied(IMPLIED_ACTIONS, g);
    }
  }

  // ---- Local roles -------------------------------------------------------------------------

  lemma RoleExactly(row: Membership, action: Action)
    ensures action in ActionsForMembership(Some(row)) <==>
              && row.active
              && match row.assignedRole
                 case Some(role) =>
                   && role.makerspace == row.makerspace && role.granted.JList?
                   && exists g :: JString(g) in role.granted.items && Listable(g) && Suffices(g, action)
                 case None =>
                   && row.role in MEMBERSHIP_ROLE_ACTIONS
                   && exists g | g in MEMBERSHIP_ROLE_ACTIONS[row.role] :: Suffices(g, action)
  {
    match row.assignedRole
    case Some(role) =>
      var kept := set a | a in Strings(role.granted) && Grantable(a);
      ExpandedExactly(kept, action);
      forall g ensures g in kept <==> role.granted.JList? && JString(g) in role.granted.items && Listable(g) {}
    case None => ExpandedExactly(LegacyActions(row.role), action);
  }

  lemma LocalExactly(db: Database, user: Id, m: Id, action: Action)
    requires Schema(db)
    ensures action in ActionsForMembership(MembershipFor(db, user, m)) <==> LocallyGranted(db, user, m, action)
  {
    match First(MembershipKeys(db, user, m))
    case Some(pk) =>
      RoleExactly(db.memberships[pk], action);
      assert forall qk | qk in db.memberships && db.memberships[qk].user == user && db.memberships[qk].makerspace == m :: qk == pk;
    case None =>
      assert forall pk | pk in db.memberships :: pk !in MembershipKeys(db, user, m);
  }

  // ---- Organizations -----------------------------------------------------------------------

  /** An organization confers an action exactly through one of its own, current, listed grants. */
  lemma OrganizationExactly(db: Database, actor: Actor, m: Id, action: Action)
    ensures action in OrgActionsFor(db, actor, m) <==>
              actor.Some? && actor.value.authenticated && OrganizationGranted(db, actor.value.id, m, action)
  {
    if actor.Some? && actor.value.authenticated {
      var user := actor.value.id;
      if action in OrgGrants(db, user, m) {
        var pk :| pk in OrgKeys(db, user, m) && action in ActionsForOrganizationMembership(db, db.orgMemberships[pk]);
        var g := GrantFound(db, user, m, action, pk);
      }
      if OrganizationGranted(db, user, m, action) {
        var pk, g :| GrantsThrough(db, user, m, action, pk, g);
        GrantUsed(db, user, m, action, pk, g);
      }
    }
  }

  lemma GrantFound(db: Database, user: Id, m: Id, action: Action, pk: Id) returns (g: Action)
    requires pk in OrgKeys(db, user, m) && action in ActionsForOrganizationMembership(db, db.orgMemberships[pk])
    ensures GrantsThrough(db, user, m, action, pk, g) && OrganizationGranted(db, user, m, action)
  {
    GrantExactly(db, db.orgMemberships[pk], action);
    var items := db.orgMemberships[pk].granted.items;
    g :| JString(g) in items && Listable(g) && !g.ManageMachines? && Suffices(g, action);
    assert AuthorityLink(db, user, db.orgMemberships[pk], m);
    assert GrantsThrough(db, user, m, action, pk, g);
  }

  lemma GrantUsed(db: Database, user: Id, m: Id, action: Action, pk: Id, g: Action)
    requires OrganizationGranted(db, user, m, action) && GrantsThrough(db, user, m, action, pk, g)
    ensures action in OrgGrants(db, user, m)
  {
    GrantExactly(db, db.orgMemberships[pk], action);
    assert pk in OrgKeys(db, user, m);
  }

  lemma GrantExactly(db: Database, row: OrgMembership, action: Action)
    requires row.active && row.organization in db.organizations && db.organizations[row.organization].active
    ensures action in ActionsForOrganizationMembership(db, row) <==>
              row.granted.JList? && exists g :: JString(g) in row.granted.items && Listable(g) && !g.ManageMachines? && Suffices(g, action)
  {
    var kept := set a | a in Strings(row.granted) && OrganizationGrantable(a);
    ExpandedExactly(kept, action);
    forall g ensures g in kept <==> row.granted.JList? && JString(g) in row.granted.items && Listable(g) && !g.ManageMachines? {}
  }

  // ---- The decisions -----------------------------------------------------------------------

  /** The pointwise decision, and for declared actions the compiled query, answer exactly what the
      stored rows confer. */
  lemma AuthorityExactly(db: Database, actor: Actor, action: Action, m: Id)
    requires Schema(db) && m in db.makerspaces
    ensures Can(db, actor, action, Some(m)) <==> Authorised(db, actor, action, m)
    ensures !action.Undeclared? ==> (InScope(MakerspacesForAction(db, actor, action), m) <==> Authorised(db, actor, action, m))
  {
    if actor.Some? {
      LocalExactly(db, actor.value.id, m, action);
      OrganizationExactly(db, actor, m, action);
    }
    if !action.Undeclared? { SetFormRefinesPointwise(db, actor, action, m); }
  }

  /** In a hidden makerspace only an active local membership confers anything, on anyone. */
  lemma HiddenNeedsMembership(db: Database, actor: Actor, action: Action, m: Id)
    requires Schema(db) && m in db.makerspaces && !db.makerspaces[m].superadminAccess
    ensures Can(db, actor, action, Some(m)) <==>
              && actor.Some? && actor.value.authenticated && !actor.value.dumpStub
              && db.makerspaces[m].servable && LocallyGranted(db, actor.value.id, m, action)
  {
    AuthorityExactly(db, actor, action, m);
  }

  /** Nobody but a superadmin where superadmins are let in may do what no role can grant. */
  lemma ForbiddenExactly(db: Database, actor: Actor, action: Action, m: Id)
    requires Schema(db) && m in db.makerspaces && !Listable(action)
    ensures Can(db, actor, action, Some(m)) <==>
              && actor.Some? && actor.value.authenticated && !actor.value.dumpStub && db.makerspaces[m].servable
              && (actor.value.superuser || actor.value.superadminRole) && db.makerspaces[m].superadminAccess
  {
    AuthorityExactly(db, actor, action, m);
    LegacyRolesAreListable();
    assert forall g | Suffices(g, action) :: !Listable(g);
    if actor.Some? {
      assert !LocallyGranted(db, actor.value.id, m, action);
      assert !OrganizationGranted(db, actor.value.id, m, action);
    }
  }

  lemma LegacyRolesAreListable()
    ensures forall role, g | role in MEMBERSHIP_ROLE_ACTIONS && g in MEMBERSHIP_ROLE_ACTIONS[role] :: Listable(g)
  {}

  /** Without a makerspace there is only the superadmin's authority. */
  lemma DeploymentExactly(db: Database, actor: Actor, action: Action)
    ensures Can(db, actor, action, None) <==>
              && actor.Some? && actor.value.authenticated && !actor.value.dumpStub
              && (actor.value.superuser || actor.value.superadminRole)
  {}

  /** The action-agnostic scope is the servable makerspaces with an active membership of the actor,
      and for superadmins all servable ones that are not hidden besides. */
  lemma VisibleExactly(db: Database, actor: Actor, m: Id)
    requires Schema(db) && m in db.makerspaces
    ensures InScope(ResolveScope(db, actor), m) <==>
              && actor.Some? && actor.value.authenticated && !actor.value.dumpStub && db.makerspaces[m].servable
              && (|| ((actor.value.superuser || actor.value.superadminRole) && db.makerspaces[m].superadminAccess)
                  || Joined(db, actor.value.id, m))
  {
    if !ActorRefused(actor) && actor.value.Superadmin() {
      var excluded := SuperadminHiddenToExclude(db, actor.value.id, None) + Unservable(db);
      assert InScope(ResolveScope(db, actor), m) <==> m !in excluded;
    }
  }

  /** The hard block stops exactly a superadmin in a hidden makerspace without an active membership
      there, and with one where its role does not confer the action asked for. */
  lemma HardBlockExactly(db: Database, actor: Actor, m: Id, action: Option<Action>)
    requires Schema(db) && m in db.makerspaces
    ensures SuperadminHiddenBlockApplies(db, actor, Some(m), action) <==>
              && actor.Some? && actor.value.authenticated && !actor.value.dumpStub
              && (actor.value.superuser || actor.value.superadminRole) && !db.makerspaces[m].superadminAccess
              && (|| !Joined(db, actor.value.id, m) || (action.Some? && !LocallyGranted(db, actor.value.id, m, action.value)))
    ensures !SuperadminHiddenBlockApplies(db, actor, None, action)
  {
    if actor.Some? {
      JoinedExactly(db, actor.value.id, m);
      if action.Some? { LocalExactly(db, actor.value.id, m, action.value); }
    }
  }

  /** An active membership of the user in the makerspace. */
  ghost predicate Joined(db: Database, user: Id, m: Id) {
    exists pk :: pk in db.memberships && db.memberships[pk].user == user && db.memberships[pk].makerspace == m && db.memberships[pk].active
  }

  lemma JoinedExactly(db: Database, user: Id, m: Id)
    ensures MembershipFor(db, user, m).Some? <==> Joined(db, user, m)
  {
    if Joined(db, user, m) {
      var pk :| pk in db.memberships && db.memberships[pk].user == user && db.memberships[pk].makerspace == m && db.memberships[pk].active;
      assert pk in MembershipKeys(db, user, m);
    }
  }
}
