/** The console's batched copy of the authority decision: one pass over a user's membership rows
    and one organization query, refining Rbac.EffectiveActions makerspace by makerspace. */
module UserPayload {
  import opened Common
  import opened ActionClosure
  import opened Rbac
  import opened Authority

  /** No request, a native device session, or a browser request with the makerspace its origin pins. */
  datatype Request = NoRequest | Device | Web(scoped: Option<Id>)

  datatype Entry = Entry(makerspace: Id, actions: set<Action>)

  predicate IsSuperadmin(user: User) {
    user.authenticated && !user.dumpStub && user.Superadmin()
  }

  /** The membership rows left after the claim, archive, hard-hide, device and origin filters. */
  function VisibleMemberships(db: Database, user: User, claim: Option<Id>, request: Request): set<Id> {
    var hidden := if IsSuperadmin(user) then SuperadminHiddenToExclude(db, user.id, None) else {};
    set pk | pk in db.memberships
             && db.memberships[pk].user == user.id
             && (claim.Some? ==> pk == claim.value)
             && db.memberships[pk].makerspace !in Unservable(db)
             && db.memberships[pk].makerspace !in hidden
             && (request.Device? ==> db.memberships[pk].active)
             && (request.Web? && request.scoped.Some? ==> db.memberships[pk].makerspace == request.scoped.value)
  }

  /** Makerspaces the organization query is restricted to, or None for all of them. */
  function OrgSpaceIds(db: Database, user: User, claim: Option<Id>, request: Request): Option<set<Id>> {
    if claim.Some? then
      Some(set pk | pk in VisibleMemberships(db, user, claim, request) && pk in db.memberships :: db.memberships[pk].makerspace)
    else if request.Web? && request.scoped.Some? then Some({request.scoped.value})
    else None
  }

  predicate Allowed(ids: Option<set<Id>>, m: Id) {
    ids.Some? ==> m in ids.value
  }

  /** What the session may show at all: the claim's own makerspace, the origin's, or everything. */
  predicate InView(db: Database, user: User, claim: Option<Id>, request: Request, m: Id) {
    && (claim.Some? ==> claim.value in db.memberships && db.memberships[claim.value].user == user.id
                        && db.memberships[claim.value].makerspace == m)
    && (request.Web? && request.scoped.Some? ==> m == request.scoped.value)
  }

  /** The join of organization grants with their usable makerspace links. */
  function JoinRows(db: Database, user: Id, ids: Option<set<Id>>): set<(Id, Id)> {
    set pk, m | pk in db.orgMemberships && m in db.makerspaces && Allowed(ids, m)
                && AuthorityLink(db, user, db.orgMemberships[pk], m) :: (pk, m)
  }

  function JoinGrants(db: Database, rows: set<(Id, Id)>, m: Id): set<Action>
    requires forall row | row in rows :: row.0 in db.orgMemberships
  {
    set row, a | row in rows && row.1 == m && a in ActionsForOrganizationMembership(db, db.orgMemberships[row.0]) :: a
  }

  lemma JoinGrantsMore(db: Database, rows: set<(Id, Id)>, row: (Id, Id), m: Id)
    requires forall r | r in rows + {row} :: r.0 in db.orgMemberships
    ensures JoinGrants(db, rows + {row}, m)
         == JoinGrants(db, rows, m) + if row.1 == m then ActionsForOrganizationMembership(db, db.orgMemberships[row.0]) else {}
  {
  }

  lemma JoinGrantsAll(db: Database, user: Id, ids: Option<set<Id>>, m: Id)
    ensures JoinGrants(db, JoinRows(db, user, ids), m) == if Allowed(ids, m) then OrgGrants(db, user, m) else {}
  {
    if Allowed(ids, m) {
      forall pk | pk in OrgKeys(db, user, m) ensures (pk, m) in JoinRows(db, user, ids) {
      }
      forall row | row in JoinRows(db, user, ids) && row.1 == m ensures row.0 in OrgKeys(db, user, m) {
      }
    }
  }

  method OrganizationMakerspaceEntries(db: Database, user: User, ids: Option<set<Id>>) returns (entries: map<Id, set<Action>>)
    ensures user.Superadmin() ==> entries == map[]
    ensures !user.Superadmin() ==> forall m :: m in entries <==> Allowed(ids, m) && OrgGrants(db, user.id, m) != {}
    ensures forall m | m in entries :: entries[m] == OrgGrants(db, user.id, m)
  {
    entries := map[];
    if !user.Superadmin() {
      entries := FoldJoinRows(db, JoinRows(db, user.id, ids));
      forall m {
        JoinGrantsAll(db, user.id, ids, m);
      }
    }
  }

  ghost predicate Folded(db: Database, rows: set<(Id, Id)>, entries: map<Id, set<Action>>)
    requires forall row | row in rows :: row.0 in db.orgMemberships
  {
    && (forall m :: m in entries <==> JoinGrants(db, rows, m) != {})
    && (forall m | m in entries :: entries[m] == JoinGrants(db, rows, m))
  }

  function AddActions(entries: map<Id, set<Action>>, m: Id, actions: set<Action>): map<Id, set<Action>> {
    if actions == {} then entries else entries[m := (if m in entries then entries[m] else {}) + actions]
  }

  lemma FoldedMore(db: Database, rows: set<(Id, Id)>, row: (Id, Id), entries: map<Id, set<Action>>)
    requires forall r | r in rows + {row} :: r.0 in db.orgMemberships
    requires Folded(db, rows, entries)
    ensures Folded(db, rows + {row}, AddActions(entries, row.1, ActionsForOrganizationMembership(db, db.orgMemberships[row.0])))
  {
    var actions := ActionsForOrganizationMembership(db, db.orgMemberships[row.0]);
    var more := AddActions(entries, row.1, actions);
    forall m ensures (m in more <==> JoinGrants(db, rows + {row}, m) != {}) && (m in more ==> more[m] == JoinGrants(db, rows + {row}, m)) {
      JoinGrantsMore(db, rows, row, m);
      assert m in entries <==> JoinGrants(db, rows, m) != {};
      if m == row.1 && actions != {} {
        var a :| a in actions;
        assert a in JoinGrants(db, rows, m) + actions;
      }
    }
  }

  method FoldJoinRows(db: Database, all: set<(Id, Id)>) returns (entries: map<Id, set<Action>>)
    requires forall row | row in all :: row.0 in db.orgMemberships
    ensures Folded(db, all, entries)
  {
    entries := map[];
    var rows := all;
    while rows != {}
      invariant rows <= all && Folded(db, all - rows, entries)
      decreases rows
    {
      var row :| row in rows;
      assert all - (rows - {row}) == (all - rows) + {row};
      var actions := ActionsForOrganizationMembership(db, db.orgMemberships[row.0]);
      FoldedMore(db, all - rows, row, entries);
      rows := rows - {row};
      entries := AddActions(entries, row.1, actions);
    }
    assert all - rows == all;
  }

  function MembershipActions(db: Database, user: User, membership: Membership, fromOrganizations: map<Id, set<Action>>): set<Action> {
    if user.Superadmin() && membership.makerspace !in SuperadminHidden(db) then ROLE_GRANTABLE
    else ActionsForMembership(Some(membership))
         + if membership.makerspace in fromOrganizations then fromOrganizations[membership.makerspace] else {}
  }

  /** The membership a user's row contributes is the one the pointwise decision looks up. */
  lemma RowIsMembershipFor(db: Database, user: Id, pk: Id)
    requires Schema(db) && pk in db.memberships && db.memberships[pk].user == user
    ensures ActionsForMembership(Some(db.memberships[pk])) == ActionsForMembership(MembershipFor(db, user, db.memberships[pk].makerspace))
  {
    var keys := MembershipKeys(db, user, db.memberships[pk].makerspace);
    assert db.memberships[pk].active ==> pk in keys;
    assert forall q | q in keys :: q == pk;
  }

  /** For a session the decision does not refuse: an entry's actions are the decision's, or, on a
      device, exactly when organizations would add nothing. */
  predicate AgreesWithDecision(db: Database, user: User, request: Request, e: Entry) {
    if ActorRefused(Some(user)) then true
    else if request.Device? then
      e.actions == EffectiveActions(db, Some(user), e.makerspace) <==>
        user.Superadmin() || OrgActionsFor(db, Some(user), e.makerspace) <= ActionsForMembership(MembershipFor(db, user.id, e.makerspace))
    else e.actions == EffectiveActions(db, Some(user), e.makerspace)
  }

  /** The organization map the payload works from. */
  ghost predicate OrganizationMap(db: Database, user: User, claim: Option<Id>, request: Request, entries: map<Id, set<Action>>) {
    if user.Superadmin() || request.Device? then entries == map[]
    else
      && (forall m :: m in entries <==> Allowed(OrgSpaceIds(db, user, claim, request), m) && OrgGrants(db, user.id, m) != {})
      && (forall m | m in entries :: entries[m] == OrgGrants(db, user.id, m))
  }

  lemma MembershipEntryAgrees(db: Database, user: User, pk: Id, claim: Option<Id>, request: Request, fromOrganizations: map<Id, set<Action>>)
    requires Schema(db) && pk in VisibleMemberships(db, user, claim, request)
    requires OrganizationMap(db, user, claim, request, fromOrganizations)
    ensures AgreesWithDecision(db, user, request, Entry(db.memberships[pk].makerspace, MembershipActions(db, user, db.memberships[pk], fromOrganizations)))
  {
    RowIsMembershipFor(db, user.id, pk);
    var m := db.memberships[pk].makerspace;
    var own, org := ActionsForMembership(MembershipFor(db, user.id, m)), OrgActionsFor(db, Some(user), m);
    assert Allowed(OrgSpaceIds(db, user, claim, request), m);
    assert org <= own ==> own + org == own;
    assert own + org == own ==> forall a | a in org :: a in own + org;
  }

  /** A native device's entry can fall short: an ordinary member whose organization lets them manage
      events is shown a membership without it. */
  lemma DeviceOmitsOrganizations() returns (db: Database, user: User, pk: Id, entry: Entry)
    ensures Schema(db) && !ActorRefused(Some(user)) && pk in VisibleMemberships(db, user, None, Device)
    ensures OrganizationMap(db, user, None, Device, map[])
    ensures entry == Entry(db.memberships[pk].makerspace, MembershipActions(db, user, db.memberships[pk], map[]))
    ensures ManageEvents in EffectiveActions(db, Some(user), entry.makerspace) && ManageEvents !in entry.actions
  {
    var grant := OrgMembership(0, 0, true, JList([JString(ManageEvents)]));
    db := Database(map[0 := Makerspace(true, true)], map[0 := Membership(0, 0, true, None, OtherRole("custom"))],
                   map[0 := Organization(true, {0})], map[0 := grant]);
    user, pk := User(0, true, false, false, false), 0;
    entry := Entry(0, MembershipActions(db, user, db.memberships[0], map[]));
    NothingExpandsToNothing();
    assert entry.actions == {};
    GrantedEvents(db, grant);
    assert 0 in OrgKeys(db, 0, 0) && ManageEvents in OrgGrants(db, 0, 0);
  }

  lemma GrantedEvents(db: Database, grant: OrgMembership)
    requires grant.granted == JList([JString(ManageEvents)]) && grant.active
    requires grant.organization in db.organizations && db.organizations[grant.organization].active
    ensures ManageEvents in ActionsForOrganizationMembership(db, grant)
  {
    var kept := set a | a in Strings(grant.granted) && OrganizationGrantable(a);
    assert JString(ManageEvents) in grant.granted.items && ManageEvents in kept;
    ExpandIsLeast(IMPLIED_ACTIONS, kept);
  }

  /** A makerspace shown only through organizations has no membership row the decision would add. */
  lemma OrganizationEntryAgrees(db: Database, user: User, m: Id, claim: Option<Id>, request: Request, fromOrganizations: map<Id, set<Action>>)
    requires Schema(db)
    requires OrganizationMap(db, user, claim, request, fromOrganizations) && m in fromOrganizations
    requires forall pk | pk in VisibleMemberships(db, user, claim, request) :: db.memberships[pk].makerspace != m
    ensures AgreesWithDecision(db, user, request, Entry(m, fromOrganizations[m]))
  {
    if ActorRefused(Some(user)) {
      return;
    }
    var a :| a in OrgGrants(db, user.id, m);
    assert m !in Unservable(db);
    forall pk | pk in db.memberships && db.memberships[pk].makerspace == m ensures pk !in MembershipKeys(db, user.id, m) {
      InvisibleIsInactive(db, user, pk, claim, request);
    }
    assert MembershipKeys(db, user.id, m) == {};
  }

  lemma InvisibleIsInactive(db: Database, user: User, pk: Id, claim: Option<Id>, request: Request)
    requires pk in db.memberships && pk !in VisibleMemberships(db, user, claim, request)
    requires claim.None? && !user.Superadmin() && db.memberships[pk].makerspace !in Unservable(db)
    requires Allowed(OrgSpaceIds(db, user, claim, request), db.memberships[pk].makerspace)
    ensures pk !in MembershipKeys(db, user.id, db.memberships[pk].makerspace)
  {
  }

  /** An ordinary user's usable makerspace in view is reached by a visible row or by organizations. */
  lemma InViewIsReached(db: Database, user: User, claim: Option<Id>, request: Request, m: Id)
    requires Schema(db) && !ActorRefused(Some(user)) && !request.Device? && !user.Superadmin()
    requires InView(db, user, claim, request, m) && EffectiveActions(db, Some(user), m) != {}
    ensures || (exists pk :: pk in VisibleMemberships(db, user, claim, request) && db.memberships[pk].makerspace == m)
            || (Allowed(OrgSpaceIds(db, user, claim, request), m) && OrgGrants(db, user.id, m) != {})
  {
    if claim.Some? {
      assert m !in Unservable(db);
      assert claim.value in VisibleMemberships(db, user, claim, request);
    } else if pk :| pk in db.memberships && db.memberships[pk].user == user.id && db.memberships[pk].makerspace == m {
      assert pk in VisibleMemberships(db, user, claim, request);
    } else {
      assert MembershipKeys(db, user.id, m) == {};
    }
  }

  /** What a session is shown. No makerspace twice; outside native device sessions every entry's
      actions are the decision's; a device entry, which omits organizations, agrees exactly when they
      add nothing; and an ordinary user misses no makerspace in view where they may do anything. */
  method BuildUserPayload(db: Database, user: User, claim: Option<Id>, request: Request) returns (entries: seq<Entry>)
    requires Schema(db)
    ensures forall i, j | 0 <= i < j < |entries| :: entries[i].makerspace != entries[j].makerspace
    ensures forall e | e in entries :: AgreesWithDecision(db, user, request, e)
    ensures !ActorRefused(Some(user)) && !request.Device? && !user.Superadmin() ==>
              forall m | InView(db, user, claim, request, m) && EffectiveActions(db, Some(user), m) != {} ::
                exists e :: e in entries && e.makerspace == m
    ensures forall m :: (exists e :: e in entries && e.makerspace == m) <==>
              ShownAsMember(db, user, claim, request, m) || ShownByOrganization(db, user, claim, request, m)
  {
    var fromOrganizations: map<Id, set<Action>> := map[];
    if !request.Device? {
      fromOrganizations := OrganizationMakerspaceEntries(db, user, OrgSpaceIds(db, user, claim, request));
    }
    var spaces;
    entries, spaces := MembershipEntries(db, user, claim, request, fromOrganizations);
    ghost var members := entries;
    entries := WithOrganizationEntries(fromOrganizations, entries, spaces);
    forall e | e in entries && e !in members ensures AgreesWithDecision(db, user, request, e) {
      assert e.makerspace !in Spaces(db, VisibleMemberships(db, user, claim, request));
      OrganizationEntryAgrees(db, user, e.makerspace, claim, request, fromOrganizations);
    }
    if !ActorRefused(Some(user)) && !request.Device? && !user.Superadmin() {
      forall m | InView(db, user, claim, request, m) && EffectiveActions(db, Some(user), m) != {} ensures m in spaces + fromOrganizations.Keys {
        InViewIsReached(db, user, claim, request, m);
      }
    }
    forall m ensures m in spaces + fromOrganizations.Keys <==>
                       ShownAsMember(db, user, claim, request, m) || ShownByOrganization(db, user, claim, request, m) {
      ShownExactly(db, user, claim, request, fromOrganizations, m);
    }
  }

  /** A membership row of the user in a servable makerspace, restricted to the claim's own, to active
      ones on a device, to the origin's makerspace, and for superadmins to active ones where hidden. */
  ghost predicate ShownAsMember(db: Database, user: User, claim: Option<Id>, request: Request, m: Id) {
    exists pk | pk in db.memberships ::
      var row := db.memberships[pk];
      && row.user == user.id && row.makerspace == m && m in db.makerspaces && db.makerspaces[m].servable
      && (claim.Some? ==> pk == claim.value)
      && (request.Device? ==> row.active)
      && (request.Web? && request.scoped.Some? ==> m == request.scoped.value)
      && ((user.authenticated && !user.dumpStub && (user.superuser || user.superadminRole) && !db.makerspaces[m].superadminAccess)
          ==> row.active)
  }

  /** Otherwise an organization grant of an ordinary user, not on a device, in the claim's own
      makerspace or the origin's. */
  ghost predicate ShownByOrganization(db: Database, user: User, claim: Option<Id>, request: Request, m: Id) {
    && !request.Device? && !user.superuser && !user.superadminRole
    && (exists a :: OrganizationGranted(db, user.id, m, a))
    && (if claim.Some? then ShownAsMember(db, user, claim, request, m)
        else request.Web? && request.scoped.Some? ==> m == request.scoped.value)
  }

  lemma MemberShownExactly(db: Database, user: User, claim: Option<Id>, request: Request, m: Id)
    requires Schema(db)
    ensures m in Spaces(db, VisibleMemberships(db, user, claim, request)) <==> ShownAsMember(db, user, claim, request, m)
  {
    var visible := VisibleMemberships(db, user, claim, request);
    if IsSuperadmin(user) && m in SuperadminHidden(db) {
      HiddenNeedsActive(db, user.id, m);
    }
    if ShownAsMember(db, user, claim, request, m) {
      var pk :| pk in db.memberships && db.memberships[pk].user == user.id && db.memberships[pk].makerspace == m && pk in visible;
      assert db.memberships[pk].makerspace in Spaces(db, visible);
    }
  }

  lemma HiddenNeedsActive(db: Database, user: Id, m: Id)
    requires Schema(db) && m in SuperadminHidden(db)
    ensures forall pk | pk in db.memberships && db.memberships[pk].user == user && db.memberships[pk].makerspace == m ::
              m !in SuperadminHiddenToExclude(db, user, None) <==> db.memberships[pk].active
  {
    forall pk | pk in db.memberships && db.memberships[pk].user == user && db.memberships[pk].makerspace == m
      ensures m !in SuperadminHiddenToExclude(db, user, None) <==> db.memberships[pk].active
    {
      var active := set q | q in db.memberships && db.memberships[q].active && db.memberships[q].user == user :: db.memberships[q].makerspace;
      assert m in active <==> db.memberships[pk].active by {
        if db.memberships[pk].active { assert db.memberships[pk].makerspace in active; }
        if m in active {
          var q :| q in db.memberships && db.memberships[q].active && db.memberships[q].user == user && db.memberships[q].makerspace == m;
          assert q == pk;
        }
      }
    }
  }

  lemma ShownExactly(db: Database, user: User, claim: Option<Id>, request: Request, fromOrganizations: map<Id, set<Action>>, m: Id)
    requires Schema(db) && OrganizationMap(db, user, claim, request, fromOrganizations)
    ensures m in Spaces(db, VisibleMemberships(db, user, claim, request)) || m in fromOrganizations <==>
              ShownAsMember(db, user, claim, request, m) || ShownByOrganization(db, user, claim, request, m)
  {
    MemberShownExactly(db, user, claim, request, m);
    GrantedExactly(db, user.id, m);
    if !user.Superadmin() && !request.Device? && claim.Some? {
      assert Allowed(OrgSpaceIds(db, user, claim, request), m) <==> m in Spaces(db, VisibleMemberships(db, user, claim, request));
    }
  }

  lemma GrantedExactly(db: Database, user: Id, m: Id)
    ensures OrgGrants(db, user, m) != {} <==> exists a :: OrganizationGranted(db, user, m, a)
  {
    var actor := Some(User(user, true, false, false, false));
    forall a ensures a in OrgGrants(db, user, m) <==> OrganizationGranted(db, user, m, a) {
      OrganizationExactly(db, actor, m, a);
    }
  }

  ghost predicate AllAgree(db: Database, user: User, request: Request, entries: seq<Entry>) {
    forall e | e in entries :: AgreesWithDecision(db, user, request, e)
  }

  function Spaces(db: Database, pks: set<Id>): set<Id>
    requires pks <= db.memberships.Keys
  {
    set pk | pk in pks :: db.memberships[pk].makerspace
  }

  method MembershipEntries(db: Database, user: User, claim: Option<Id>, request: Request, fromOrganizations: map<Id, set<Action>>)
    returns (entries: seq<Entry>, spaces: set<Id>)
    requires Schema(db)
    requires OrganizationMap(db, user, claim, request, fromOrganizations)
    ensures spaces == Spaces(db, VisibleMemberships(db, user, claim, request))
    ensures OneEntryEach(entries, spaces) && AllAgree(db, user, request, entries)
  {
    var memberships := VisibleMemberships(db, user, claim, request);
    entries, spaces := [], {};
    var rest := memberships;
    while rest != {}
      invariant rest <= memberships
      invariant spaces == Spaces(db, memberships - rest)
      invariant OneEntryEach(entries, spaces) && AllAgree(db, user, request, entries)
      decreases rest
    {
      var pk :| pk in rest;
      var membership := db.memberships[pk];
      assert memberships - (rest - {pk}) == (memberships - rest) + {pk};
      rest := rest - {pk};
      MembershipEntryAgrees(db, user, pk, claim, request, fromOrganizations);
      entries := AppendEntry(entries, spaces, Entry(membership.makerspace, MembershipActions(db, user, membership, fromOrganizations)));
      spaces := spaces + {membership.makerspace};
    }
    assert memberships - rest == memberships;
  }

  method WithOrganizationEntries(fromOrganizations: map<Id, set<Action>>, members: seq<Entry>, spaces: set<Id>) returns (entries: seq<Entry>)
    requires OneEntryEach(members, spaces)
    ensures OneEntryEach(entries, spaces + fromOrganizations.Keys)
    ensures forall e | e in entries ::
              e in members || (e.makerspace in fromOrganizations && e.makerspace !in spaces && e.actions == fromOrganizations[e.makerspace])
  {
    entries := members;
    var others := fromOrganizations.Keys - spaces;
    ghost var shown := spaces;
    while others != {}
      invariant others <= fromOrganizations.Keys - spaces && others !! shown
      invariant shown + others == spaces + fromOrganizations.Keys
      invariant OneEntryEach(entries, shown)
      invariant forall e | e in entries ::
                  e in members || (e.makerspace in fromOrganizations && e.makerspace !in spaces && e.actions == fromOrganizations[e.makerspace])
      decreases others
    {
      var m :| m in others;
      others := others - {m};
      entries := AppendEntry(entries, shown, Entry(m, fromOrganizations[m]));
      shown := shown + {m};
    }
    assert shown == spaces + fromOrganizations.Keys;
  }

  /** The entries name exactly these makerspaces, each once. */
  ghost predicate OneEntryEach(entries: seq<Entry>, spaces: set<Id>) {
    && (forall e | e in entries :: e.makerspace in spaces)
    && (forall m | m in spaces :: exists e :: e in entries && e.makerspace == m)
    && (forall i, j | 0 <= i < j < |entries| :: entries[i].makerspace != entries[j].makerspace)
  }

  function AppendEntry(entries: seq<Entry>, ghost spaces: set<Id>, e: Entry): (longer: seq<Entry>)
    requires OneEntryEach(entries, spaces) && e.makerspace !in spaces
    ensures OneEntryEach(longer, spaces + {e.makerspace})
    ensures forall x :: x in longer <==> x in entries || x == e
  {
    var longer := entries + [e];
    assert forall x | x in entries :: x in longer;
    assert e in longer;
    longer
  }
}
