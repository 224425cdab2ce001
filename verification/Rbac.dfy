/** Per-makerspace authority: the pointwise decision `Can`, the compiled set query
    `MakerspacesForAction`, and their agreement over arbitrary populations. */
module Rbac {
  import opened Common
  import opened ActionClosure

  type Id = nat

  datatype Action =
    | ManageEvents | ManageBookings | ViewInventory | EditInventory | AcceptRequest | RejectRequest
    | AssignBox | IssueRequest | IssueDirectLoan | ReturnRequest | UploadEvidence
    | CollectServiceRequest | ManageQr | ManagePrinting | ManageMachines | ViewAudit
    | TransferStock | ManageStaff | ManageMakerspace
    | Undeclared(name: string)

  const IMPLIED_ACTIONS: Implications<Action> := map[ManageMachines := {ManagePrinting, CollectServiceRequest}]

  predicate Forbidden(a: Action) {
    a.TransferStock? || a.ManageStaff?
  }

  predicate Grantable(a: Action) {
    !a.Undeclared? && !Forbidden(a)
  }

  predicate OrganizationGrantable(a: Action) {
    Grantable(a) && !a.ManageMachines?
  }

  const INVENTORY_MANAGER: set<Action> := {
    ViewInventory, EditInventory, AcceptRequest, RejectRequest, AssignBox, IssueRequest,
    IssueDirectLoan, ReturnRequest, UploadEvidence, ManageQr, ViewAudit}
  const SPACE_MANAGER: set<Action> := INVENTORY_MANAGER + {
    ManagePrinting, ManageMakerspace, ManageMachines, ManageEvents, ManageBookings}
  const ALL_ACTIONS: set<Action> := SPACE_MANAGER + {CollectServiceRequest, TransferStock, ManageStaff}
  const ROLE_GRANTABLE: set<Action> := set a | a in ALL_ACTIONS && Grantable(a)

  datatype LegacyRole = SpaceManager | InventoryManager | PrintManager | MachineManager | OtherRole(name: string)

  /** Legacy role name of a membership -> actions. */
  const MEMBERSHIP_ROLE_ACTIONS: map<LegacyRole, set<Action>> := map[
    SpaceManager := SPACE_MANAGER,
    InventoryManager := INVENTORY_MANAGER,
    PrintManager := {ManagePrinting},
    MachineManager := {ManageMachines}]

  // ---- Population --------------------------------------------------------------------------

  /** A stored JSON column that should hold a list of action names. */
  datatype Json = JList(items: seq<JsonItem>) | JOther
  datatype JsonItem = JString(action: Action) | JNonString

  /** Containment of a one-string list. */
  predicate Contains(value: Json, a: Action) {
    value.JList? && JString(a) in value.items
  }

  function Strings(value: Json): set<Action> {
    if value.JList? then set item | item in value.items && item.JString? :: item.action else {}
  }

  datatype Role = Role(makerspace: Id, granted: Json, legacyRole: LegacyRole)
  datatype Membership = Membership(user: Id, makerspace: Id, active: bool, assignedRole: Option<Role>, role: LegacyRole)
  datatype Makerspace = Makerspace(servable: bool, superadminAccess: bool)
  datatype Organization = Organization(active: bool, links: set<Id>)
  datatype OrgMembership = OrgMembership(user: Id, organization: Id, active: bool, granted: Json)
  datatype User = User(id: Id, authenticated: bool, dumpStub: bool, superuser: bool, superadminRole: bool)
  {
    predicate Superadmin() {
      superuser || superadminRole
    }
  }

  datatype Database = Database(
    makerspaces: map<Id, Makerspace>,
    memberships: map<Id, Membership>,
    organizations: map<Id, Organization>,
    orgMemberships: map<Id, OrgMembership>)

  /** The constraints the schema itself enforces. */
  ghost predicate Schema(db: Database) {
    && (forall pk | pk in db.memberships :: db.memberships[pk].makerspace in db.makerspaces)
    && (forall pk, qk | pk in db.memberships && qk in db.memberships
          && db.memberships[pk].user == db.memberships[qk].user
          && db.memberships[pk].makerspace == db.memberships[qk].makerspace :: pk == qk)
    && (forall pk | pk in db.orgMemberships :: db.orgMemberships[pk].organization in db.organizations)
    && (forall o | o in db.organizations :: db.organizations[o].links <= db.makerspaces.Keys)
  }

  type Actor = Option<User>

  predicate ActorRefused(actor: Actor) {
    actor.None? || !actor.value.authenticated || actor.value.dumpStub
  }

  function Unservable(db: Database): set<Id> {
    set m | m in db.makerspaces && !db.makerspaces[m].servable
  }

  function SuperadminHidden(db: Database): set<Id> {
    set m | m in db.makerspaces && !db.makerspaces[m].superadminAccess
  }

  // ---- One makerspace ----------------------------------------------------------------------

  function MembershipKeys(db: Database, user: Id, m: Id): set<Id> {
    set pk | pk in db.memberships && db.memberships[pk].active
             && db.memberships[pk].user == user && db.memberships[pk].makerspace == m
  }

  function MembershipFor(db: Database, user: Id, m: Id): Option<Membership> {
    match First(MembershipKeys(db, user, m))
    case None => None
    case Some(pk) => Some(db.memberships[pk])
  }

  function LegacyActions(role: LegacyRole): set<Action> {
    if role in MEMBERSHIP_ROLE_ACTIONS then MEMBERSHIP_ROLE_ACTIONS[role] else {}
  }

  function ActionsForMembership(membership: Option<Membership>): set<Action> {
    if membership.None? || !membership.value.active then {}
    else
      match membership.value.assignedRole
      case Some(role) =>
        if role.makerspace != membership.value.makerspace || !role.granted.JList? then {}
        else Expand(IMPLIED_ACTIONS, set a | a in Strings(role.granted) && Grantable(a))
      case None => Expand(IMPLIED_ACTIONS, LegacyActions(membership.value.role))
  }

  function ActionsForOrganizationMembership(db: Database, om: OrgMembership): set<Action> {
    if !om.active || om.organization !in db.organizations || !db.organizations[om.organization].active
       || !om.granted.JList? then {}
    else Expand(IMPLIED_ACTIONS, set a | a in Strings(om.granted) && OrganizationGrantable(a))
  }

  /** An organization grant joined with one linked makerspace that may use it. */
  predicate AuthorityLink(db: Database, user: Id, om: OrgMembership, m: Id) {
    && om.user == user && om.active
    && om.organization in db.organizations
    && db.organizations[om.organization].active
    && m in db.organizations[om.organization].links
    && m in db.makerspaces
    && db.makerspaces[m].superadminAccess && db.makerspaces[m].servable
  }

  function OrgKeys(db: Database, user: Id, m: Id): set<Id> {
    set pk | pk in db.orgMemberships && AuthorityLink(db, user, db.orgMemberships[pk], m)
  }

  function OrgGrants(db: Database, user: Id, m: Id): set<Action> {
    set pk, a | pk in OrgKeys(db, user, m) && a in ActionsForOrganizationMembership(db, db.orgMemberships[pk]) :: a
  }

  function OrgActionsFor(db: Database, actor: Actor, m: Id): set<Action> {
    if actor.None? || !actor.value.authenticated then {} else OrgGrants(db, actor.value.id, m)
  }

  predicate Can(db: Database, actor: Actor, action: Action, makerspace: Option<Id>) {
    if ActorRefused(actor) then false
    else if makerspace.Some? && makerspace.value in Unservable(db) then false
    else if actor.value.Superadmin() then
      if makerspace.None? then true
      else if makerspace.value in SuperadminHidden(db) then
        action in ActionsForMembership(MembershipFor(db, actor.value.id, makerspace.value))
      else true
    else if makerspace.None? then false
    else
      || action in ActionsForMembership(MembershipFor(db, actor.value.id, makerspace.value))
      || action in OrgActionsFor(db, actor, makerspace.value)
  }

  function EffectiveActions(db: Database, actor: Actor, m: Id): set<Action> {
    if ActorRefused(actor) || m in Unservable(db) then {}
    else if actor.value.Superadmin() then
      if m in SuperadminHidden(db) then ActionsForMembership(MembershipFor(db, actor.value.id, m))
      else ROLE_GRANTABLE
    else ActionsForMembership(MembershipFor(db, actor.value.id, m)) + OrgActionsFor(db, actor, m)
  }

  predicate SuperadminHiddenBlockApplies(db: Database, actor: Actor, m: Option<Id>, action: Option<Action>) {
    if actor.None? || ActorRefused(actor) || !actor.value.Superadmin() || m.None? then false
    else if m.value !in SuperadminHidden(db) then false
    else
      var membership := MembershipFor(db, actor.value.id, m.value);
      if membership.None? then true
      else if action.None? then false
      else action.value !in ActionsForMembership(membership)
  }

  // ---- Sets of makerspaces -----------------------------------------------------------------

  datatype Scope = All | Ids(ids: set<Id>)

  predicate InScope(scope: Scope, m: Id) {
    scope.All? || m in scope.ids
  }

  /** Legacy roles whose fixed action set satisfies the request. */
  function LegacyRoles(action: Action): set<LegacyRole> {
    set role | role in MEMBERSHIP_ROLE_ACTIONS && MEMBERSHIP_ROLE_ACTIONS[role] * Satisfying(IMPLIED_ACTIONS, action) != {}
  }

  /** The query a stored membership row must match: role rows by JSON containment of any satisfying
      grant, role-less rows by legacy role name. */
  predicate MembershipMatches(membership: Membership, satisfying: set<Action>, legacyRoles: set<LegacyRole>) {
    match membership.assignedRole
    case Some(role) => role.makerspace == membership.makerspace && exists g | g in satisfying :: Contains(role.granted, g)
    case None => membership.role in legacyRoles
  }

  function MemberScope(db: Database, user: Id, action: Action): set<Id> {
    set pk | pk in db.memberships && db.memberships[pk].active && db.memberships[pk].user == user
             && MembershipMatches(db.memberships[pk], Satisfying(IMPLIED_ACTIONS, action), LegacyRoles(action))
           :: db.memberships[pk].makerspace
  }

  function OrgSatisfying(action: Action): set<Action> {
    set g | g in Satisfying(IMPLIED_ACTIONS, action) && OrganizationGrantable(g)
  }

  /** Rows of the batched organization query: a grant column next to one linked makerspace. */
  function OrgRows(db: Database, user: Id, satisfying: set<Action>): set<(Id, Id)> {
    set pk, m | pk in db.orgMemberships && m in db.makerspaces
                && AuthorityLink(db, user, db.orgMemberships[pk], m)
                && (exists g | g in satisfying :: Contains(db.orgMemberships[pk].granted, g)) :: (pk, m)
  }

  /** Whether one batched row, expanded in memory, still grants the action. */
  predicate RowGrants(value: Json, action: Action) {
    value.JList? && action in Expand(IMPLIED_ACTIONS, set a | a in Strings(value) && OrganizationGrantable(a))
  }

  /** Makerspaces some row of the batch grants the action in. */
  function GrantedIn(db: Database, rows: set<(Id, Id)>, action: Action): set<Id>
    requires forall row | row in rows :: row.0 in db.orgMemberships
  {
    set row | row in rows && RowGrants(db.orgMemberships[row.0].granted, action) :: row.1
  }

  function OrgScopeForAction(db: Database, actor: Actor, action: Action): set<Id> {
    if actor.None? || !actor.value.authenticated || OrgSatisfying(action) == {} then {}
    else GrantedIn(db, OrgRows(db, actor.value.id, OrgSatisfying(action)), action)
  }

  function SuperadminHiddenToExclude(db: Database, user: Id, action: Option<Action>): set<Id> {
    var hidden := SuperadminHidden(db);
    match action
    case None =>
      hidden - set pk | pk in db.memberships && db.memberships[pk].active && db.memberships[pk].user == user
                      :: db.memberships[pk].makerspace
    case Some(a) =>
      if Forbidden(a) then hidden else hidden - MemberScope(db, user, a)
  }

  function SuperadminVisible(db: Database, user: Id, action: Option<Action>): Scope {
    var excluded := SuperadminHiddenToExclude(db, user, action) + Unservable(db);
    if excluded == {} then All else Ids(db.makerspaces.Keys - excluded)
  }

  function MakerspacesForAction(db: Database, actor: Actor, action: Action): Scope {
    if ActorRefused(actor) then Ids({})
    else if actor.value.Superadmin() then SuperadminVisible(db, actor.value.id, Some(action))
    else if Forbidden(action) then Ids({})
    else Ids(MemberScope(db, actor.value.id, action) + OrgScopeForAction(db, actor, action) - Unservable(db))
  }

  function ResolveScope(db: Database, actor: Actor): Scope {
    if ActorRefused(actor) then Ids({})
    else if actor.value.Superadmin() then SuperadminVisible(db, actor.value.id, None)
    else
      Ids((set pk | pk in db.memberships && db.memberships[pk].active && db.memberships[pk].user == actor.value.id
                  :: db.memberships[pk].makerspace) - Unservable(db))
  }

  // ---- The compiled query refines the pointwise decision -----------------------------------

  /** No forbidden or undeclared grant satisfies a declared, role-grantable request. */
  lemma SatisfyingIsGrantable(action: Action)
    requires !action.Undeclared?
    ensures forall g | g in Satisfying(IMPLIED_ACTIONS, action) :: g == action || g == ManageMachines
    ensures !Forbidden(action) ==> forall g | g in Satisfying(IMPLIED_ACTIONS, action) :: Grantable(g)
    ensures Forbidden(action) ==> Satisfying(IMPLIED_ACTIONS, action) == {action}
  {
    SatisfyingIsLeast(IMPLIED_ACTIONS, action);
    assert CoClosed(IMPLIED_ACTIONS, {action, ManageMachines});
    if Forbidden(action) {
      assert CoClosed(IMPLIED_ACTIONS, {action});
    }
  }

  lemma RoleRefines(granted: Json, action: Action)
    requires !action.Undeclared?
    ensures var resolved := Expand(IMPLIED_ACTIONS, set a | a in Strings(granted) && Grantable(a));
            if Forbidden(action) then action !in resolved
            else action in resolved <==> exists g | g in Satisfying(IMPLIED_ACTIONS, action) :: Contains(granted, g)
  {
    SatisfyingIsGrantable(action);
    var satisfying := Satisfying(IMPLIED_ACTIONS, action);
    var kept := set a | a in Strings(granted) && Grantable(a);
    Adjoint(IMPLIED_ACTIONS, kept, action);
    if g :| g in satisfying && Contains(granted, g) && !Forbidden(action) {
      assert g in satisfying * kept;
    }
    if g :| g in satisfying * kept {
      assert Contains(granted, g);
    }
  }

  lemma LegacyRefines(role: LegacyRole, action: Action)
    requires !action.Undeclared?
    ensures if Forbidden(action) then action !in Expand(IMPLIED_ACTIONS, LegacyActions(role))
            else action in Expand(IMPLIED_ACTIONS, LegacyActions(role)) <==> role in LegacyRoles(action)
  {
    SatisfyingIsGrantable(action);
    Adjoint(IMPLIED_ACTIONS, LegacyActions(role), action);
  }

  /** Resolving one membership row agrees with matching it in the query. */
  lemma MembershipRefines(membership: Membership, action: Action)
    requires !action.Undeclared? && membership.active
    ensures action in ActionsForMembership(Some(membership)) <==>
              !Forbidden(action) && MembershipMatches(membership, Satisfying(IMPLIED_ACTIONS, action), LegacyRoles(action))
  {
    match membership.assignedRole
    case Some(role) => RoleRefines(role.granted, action);
    case None => LegacyRefines(membership.role, action);
  }

  /** Resolving one organization grant agrees with the batched query's containment filter. */
  lemma OrganizationRefines(granted: Json, action: Action)
    ensures RowGrants(granted, action) <==> exists g | g in OrgSatisfying(action) :: Contains(granted, g)
  {
    var kept := set a | a in Strings(granted) && OrganizationGrantable(a);
    Adjoint(IMPLIED_ACTIONS, kept, action);
    if g :| g in OrgSatisfying(action) && Contains(granted, g) {
      assert g in Satisfying(IMPLIED_ACTIONS, action) * kept;
    }
    if g :| g in Satisfying(IMPLIED_ACTIONS, action) * kept {
      assert g in OrgSatisfying(action) && Contains(granted, g);
    }
  }

  /** One member's makerspace is in the query's answer exactly when their role there grants it. */
  lemma MemberScopeRefines(db: Database, user: Id, m: Id, action: Action)
    requires Schema(db) && !action.Undeclared?
    ensures action in ActionsForMembership(MembershipFor(db, user, m)) <==> !Forbidden(action) && m in MemberScope(db, user, action)
  {
    var satisfying, legacy := Satisfying(IMPLIED_ACTIONS, action), LegacyRoles(action);
    match First(MembershipKeys(db, user, m))
    case Some(pk) =>
      MembershipRefines(db.memberships[pk], action);
      assert m in MemberScope(db, user, action) <==> MembershipMatches(db.memberships[pk], satisfying, legacy);
    case None =>
      forall pk | pk in db.memberships && db.memberships[pk].active && db.memberships[pk].user == user
        ensures db.memberships[pk].makerspace != m
      {
        assert pk !in MembershipKeys(db, user, m);
      }
  }

  lemma OrgScopeSound(db: Database, user: Id, pk: Id, m: Id, action: Action)
    requires pk in OrgKeys(db, user, m) && action in ActionsForOrganizationMembership(db, db.orgMemberships[pk])
    ensures OrgSatisfying(action) != {} && m in GrantedIn(db, OrgRows(db, user, OrgSatisfying(action)), action)
  {
    OrganizationRefines(db.orgMemberships[pk].granted, action);
    assert (pk, m) in OrgRows(db, user, OrgSatisfying(action));
  }

  lemma OrgScopeComplete(db: Database, actor: Actor, m: Id, action: Action)
    requires m in OrgScopeForAction(db, actor, action)
    ensures action in OrgActionsFor(db, actor, m)
  {
    var row :| row in OrgRows(db, actor.value.id, OrgSatisfying(action)) && row.1 == m
               && RowGrants(db.orgMemberships[row.0].granted, action);
    assert row.0 in OrgKeys(db, actor.value.id, m);
    assert action in ActionsForOrganizationMembership(db, db.orgMemberships[row.0]);
  }

  lemma OrgScopeRefines(db: Database, actor: Actor, m: Id, action: Action)
    requires m in db.makerspaces
    ensures action in OrgActionsFor(db, actor, m) <==> m in OrgScopeForAction(db, actor, action)
  {
    if action in OrgActionsFor(db, actor, m) {
      var pk :| pk in OrgKeys(db, actor.value.id, m) && action in ActionsForOrganizationMembership(db, db.orgMemberships[pk]);
      OrgScopeSound(db, actor.value.id, pk, m, action);
    }
    if m in OrgScopeForAction(db, actor, action) {
      OrgScopeComplete(db, actor, m, action);
    }
  }

  /** Organizations never confer a forbidden action. */
  lemma OrganizationsNeverForbidden(db: Database, actor: Actor, m: Id, action: Action)
    requires m in db.makerspaces && Forbidden(action)
    ensures action !in OrgActionsFor(db, actor, m)
  {
    SatisfyingIsGrantable(action);
    OrgScopeRefines(db, actor, m, action);
  }

  lemma SuperadminRefines(db: Database, actor: Actor, action: Action, m: Id)
    requires Schema(db) && m in db.makerspaces && !action.Undeclared?
    requires !ActorRefused(actor) && actor.value.Superadmin()
    ensures InScope(MakerspacesForAction(db, actor, action), m) <==> Can(db, actor, action, Some(m))
  {
    MemberScopeRefines(db, actor.value.id, m, action);
    var excluded := SuperadminHiddenToExclude(db, actor.value.id, Some(action)) + Unservable(db);
    assert m in excluded <==> !Can(db, actor, action, Some(m));
  }

  lemma MemberRefines(db: Database, actor: Actor, action: Action, m: Id)
    requires Schema(db) && m in db.makerspaces && !action.Undeclared?
    requires !ActorRefused(actor) && !actor.value.Superadmin()
    ensures InScope(MakerspacesForAction(db, actor, action), m) <==> Can(db, actor, action, Some(m))
  {
    MemberScopeRefines(db, actor.value.id, m, action);
    OrgScopeRefines(db, actor, m, action);
    if Forbidden(action) {
      OrganizationsNeverForbidden(db, actor, m, action);
    }
  }

  /** For every actor, declared action and existing makerspace, whatever the population, the
      compiled set contains the makerspace exactly when the pointwise decision allows it. */
  lemma SetFormRefinesPointwise(db: Database, actor: Actor, action: Action, m: Id)
    requires Schema(db) && m in db.makerspaces && !action.Undeclared?
    ensures InScope(MakerspacesForAction(db, actor, action), m) <==> Can(db, actor, action, Some(m))
  {
    if !ActorRefused(actor) {
      if actor.value.Superadmin() {
        SuperadminRefines(db, actor, action, m);
      } else {
        MemberRefines(db, actor, action, m);
      }
    }
  }

  /** A role row may store any string, and only the query believes one that names no action. */
  lemma UndeclaredDisagrees(action: Action) returns (db: Database, actor: Actor, m: Id)
    requires action.Undeclared?
    ensures Schema(db) && m in db.makerspaces
    ensures InScope(MakerspacesForAction(db, actor, action), m) && !Can(db, actor, action, Some(m))
  {
    var role := Role(0, JList([JString(action)]), OtherRole(""));
    var membership := Membership(0, 0, true, Some(role), OtherRole("custom"));
    db, actor, m := Database(map[0 := Makerspace(true, true)], map[0 := membership], map[], map[]), Some(User(0, true, false, false, false)), 0;
    BelievedByTheQuery(membership, role, action);
    IgnoredPointwise(membership, role, action);
    assert 0 in db.memberships && 0 in MemberScope(db, 0, action);
  }

  lemma BelievedByTheQuery(membership: Membership, role: Role, action: Action)
    requires membership.assignedRole == Some(role) && role.makerspace == membership.makerspace && role.granted == JList([JString(action)])
    ensures MembershipMatches(membership, Satisfying(IMPLIED_ACTIONS, action), LegacyRoles(action))
  {
    SatisfyingIsLeast(IMPLIED_ACTIONS, action);
    assert Contains(role.granted, action) && action in Satisfying(IMPLIED_ACTIONS, action);
  }

  lemma IgnoredPointwise(membership: Membership, role: Role, action: Action)
    requires membership.assignedRole == Some(role) && role.granted == JList([JString(action)]) && action.Undeclared?
    ensures ActionsForMembership(Some(membership)) == {}
  {
    assert (set a | a in Strings(role.granted) && Grantable(a)) == {};
    NothingExpandsToNothing();
  }

  lemma NothingExpandsToNothing()
    ensures Expand(IMPLIED_ACTIONS, {}) == {}
  {
    ExpandIsLeast(IMPLIED_ACTIONS, {});
    assert Closed(IMPLIED_ACTIONS, {});
  }

  /** The two forms agree on every population exactly for declared actions. */
  lemma AgreementNeedsDeclaration(action: Action)
    ensures (forall db, actor, m | Schema(db) && m in db.makerspaces ::
               InScope(MakerspacesForAction(db, actor, action), m) <==> Can(db, actor, action, Some(m)))
            <==> !action.Undeclared?
  {
    if action.Undeclared? {
      var db, actor, m := UndeclaredDisagrees(action);
    } else {
      forall db, actor, m | Schema(db) && m in db.makerspaces
        ensures InScope(MakerspacesForAction(db, actor, action), m) <==> Can(db, actor, action, Some(m))
      {
        SetFormRefinesPointwise(db, actor, action, m);
      }
    }
  }

  /** The materialized action set agrees with the decision, except that a superadmin outside a
      hard-hidden space may also do what no role can grant. */
  lemma EffectiveActionsAgree(db: Database, actor: Actor, action: Action, m: Id)
    requires Schema(db) && m in db.makerspaces && !action.Undeclared?
    ensures action in EffectiveActions(db, actor, m) <==>
              Can(db, actor, action, Some(m))
              && !(actor.value.Superadmin() && m !in SuperadminHidden(db) && Forbidden(action))
  {
  }

  /** The hard block on a superadmin is exactly the denial of a servable hidden space. */
  lemma HardBlockAgrees(db: Database, actor: Actor, action: Action, m: Id)
    requires m in db.makerspaces && db.makerspaces[m].servable
    requires !ActorRefused(actor) && actor.value.Superadmin()
    ensures SuperadminHiddenBlockApplies(db, actor, Some(m), Some(action)) <==> !Can(db, actor, action, Some(m))
  {
  }

  /** Any action anywhere is only ever granted inside the visible scope or through an organization. */
  lemma AuthorityIsVisible(db: Database, actor: Actor, action: Action, m: Id)
    requires Schema(db) && m in db.makerspaces && Can(db, actor, action, Some(m))
    ensures InScope(ResolveScope(db, actor), m) || action in OrgActionsFor(db, actor, m)
  {
    var user := actor.value.id;
    if First(MembershipKeys(db, user, m)).Some? {
      var pk := First(MembershipKeys(db, user, m)).value;
      assert pk in db.memberships;
    }
  }

  // ---- The accumulating loops --------------------------------------------------------------

  /** Filters for a scope query: the satisfying grants and the legacy roles that hold one. */
  method ActionScopeFilters(action: Action) returns (satisfying: set<Action>, legacyRoles: seq<LegacyRole>)
    ensures satisfying == Satisfying(IMPLIED_ACTIONS, action)
    ensures forall role :: role in legacyRoles <==> role in LegacyRoles(action)
  {
    satisfying := ActionsSatisfying(IMPLIED_ACTIONS, action);
    legacyRoles := [];
    var roles := MEMBERSHIP_ROLE_ACTIONS.Keys;
    while roles != {}
      invariant roles <= MEMBERSHIP_ROLE_ACTIONS.Keys
      invariant forall role :: role in legacyRoles <==> role in LegacyRoles(action) && role !in roles
      decreases roles
    {
      var role :| role in roles;
      roles := roles - {role};
      if MEMBERSHIP_ROLE_ACTIONS[role] * satisfying != {} {
        legacyRoles := legacyRoles + [role];
      }
    }
  }

  method CollectOrgActions(db: Database, actor: Actor, m: Id) returns (granted: set<Action>)
    ensures granted == OrgActionsFor(db, actor, m)
  {
    granted := {};
    if actor.None? || !actor.value.authenticated {
      return;
    }
    var rows := OrgKeys(db, actor.value.id, m);
    while rows != {}
      invariant rows <= OrgKeys(db, actor.value.id, m)
      invariant forall a :: a in granted <==>
                  (exists pk :: pk in OrgKeys(db, actor.value.id, m) - rows && a in ActionsForOrganizationMembership(db, db.orgMemberships[pk]))
      decreases rows
    {
      var pk :| pk in rows;
      ghost var before := granted;
      rows := rows - {pk};
      granted := granted + ActionsForOrganizationMembership(db, db.orgMemberships[pk]);
      assert forall q :: q in OrgKeys(db, actor.value.id, m) - rows <==> q == pk || q in OrgKeys(db, actor.value.id, m) - (rows + {pk});
    }
  }

  lemma GrantedInMore(db: Database, rows: set<(Id, Id)>, row: (Id, Id), action: Action)
    requires forall r | r in rows + {row} :: r.0 in db.orgMemberships
    ensures GrantedIn(db, rows + {row}, action)
         == GrantedIn(db, rows, action) + if RowGrants(db.orgMemberships[row.0].granted, action) then {row.1} else {}
  {
  }

  method CollectOrgScope(db: Database, actor: Actor, action: Action) returns (scope: set<Id>)
    ensures scope == OrgScopeForAction(db, actor, action)
    ensures forall m | m in db.makerspaces :: m in scope <==> action in OrgActionsFor(db, actor, m)
  {
    forall m | m in db.makerspaces {
      OrgScopeRefines(db, actor, m, action);
    }
    scope := {};
    if actor.None? || !actor.value.authenticated {
      return;
    }
    var satisfying := ActionsSatisfying(IMPLIED_ACTIONS, action);
    satisfying := set g | g in satisfying && OrganizationGrantable(g);
    assert satisfying == OrgSatisfying(action);
    if satisfying != {} {
      scope := ScanOrgRows(db, OrgRows(db, actor.value.id, satisfying), action);
    }
  }

  method ScanOrgRows(db: Database, all: set<(Id, Id)>, action: Action) returns (scope: set<Id>)
    requires forall row | row in all :: row.0 in db.orgMemberships
    ensures scope == GrantedIn(db, all, action)
  {
    scope := {};
    var rows := all;
    while rows != {}
      invariant rows <= all
      invariant scope == GrantedIn(db, all - rows, action)
      decreases rows
    {
      var row :| row in rows;
      assert all - (rows - {row}) == (all - rows) + {row};
      GrantedInMore(db, all - rows, row, action);
      rows := rows - {row};
      var value := db.orgMemberships[row.0].granted;
      if value.JList? {
        var kept := set a | a in Strings(value) && OrganizationGrantable(a);
        var expanded := ExpandImpliedActions(IMPLIED_ACTIONS, kept);
        if action in expanded {
          scope := scope + {row.1};
        }
      }
    }
  }

  /** The union of several actions' scopes, stopping at the first unrestricted one. */
  method MakerspacesForActions(db: Database, actor: Actor, actions: seq<Action>) returns (scope: Scope)
    ensures forall m :: InScope(scope, m) <==> exists a :: a in actions && InScope(MakerspacesForAction(db, actor, a), m)
  {
    var combined: set<Id> := {};
    for i := 0 to |actions|
      invariant forall m :: m in combined <==> exists a :: a in actions[..i] && InScope(MakerspacesForAction(db, actor, a), m)
    {
      var next := MakerspacesForAction(db, actor, actions[i]);
      if next.All? {
        return All;
      }
      combined := combined + next.ids;
      assert actions[..i + 1] == actions[..i] + [actions[i]];
    }
    assert actions[..|actions|] == actions;
    scope := Ids(combined);
  }

  /** The union over declared actions is the pointwise disjunction. */
  lemma UnionRefinesPointwise(db: Database, actor: Actor, actions: seq<Action>, m: Id)
    requires Schema(db) && m in db.makerspaces && forall a | a in actions :: !a.Undeclared?
    ensures (exists a :: a in actions && InScope(MakerspacesForAction(db, actor, a), m))
       <==> (exists a :: a in actions && Can(db, actor, a, Some(m)))
  {
    forall a | a in actions
      ensures InScope(MakerspacesForAction(db, actor, a), m) <==> Can(db, actor, a, Some(m))
    {
      SetFormRefinesPointwise(db, actor, a, m);
    }
  }
}
