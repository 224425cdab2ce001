/** Recipient rules of one event, edited through a delegate's reach.

    A row without links covers every subject. A delegate is shown the rows inside their reach and
    their own share of the rows that name nobody, and writes them back through a merge. */
module RecipientRules {
  import opened Common

  type SpaceId = nat
  type RoleId = nat
  type UserId = nat
  type TypeId = nat
  type MachineId = nat
  type CategoryId = nat
  type RowId = nat

  datatype Machine = Machine(kind: TypeId, space: SpaceId)

  datatype Membership = Membership(user: UserId, space: SpaceId, active: bool, role: Option<RoleId>,
                                   live: bool, superuser: bool)

  datatype Directory = Directory(
    space: SpaceId,                           // the makerspace whose rules these are
    types: map<TypeId, Option<SpaceId>>,      // None: a global machine type
    machines: map<MachineId, Machine>,
    categories: map<CategoryId, SpaceId>,
    roles: map<RoleId, SpaceId>,
    memberships: map<nat, Membership>)

  datatype Reach = Reach(types: set<TypeId>, machines: set<MachineId>)

  /** Whom a row notifies; the database refuses a kind that does not match its foreign keys. */
  datatype Target = ToRole(role: RoleId) | ToUser(user: UserId) | ToRequester | ToMembers
  {
    predicate Shared() { ToRequester? || ToMembers? }
  }

  datatype Links = Links(types: set<TypeId>, machines: set<MachineId>, categories: set<CategoryId>)
  {
    predicate Empty() { types == {} && machines == {} && categories == {} }
  }

  datatype Row = Row(target: Target, links: Links)

  const NoLinks: Links := Links({}, {}, {})

  predicate CoversMachine(dir: Directory, reach: Reach, m: MachineId) {
    m in reach.machines || (m in dir.machines && dir.machines[m].kind in reach.types)
  }

  /** The links a delegate may replace; never a category. */
  function Owned(dir: Directory, reach: Reach, links: Links): Links {
    Links(links.types * reach.types, (set m | m in links.machines && CoversMachine(dir, reach, m)), {})
  }

  function Unowned(dir: Directory, reach: Reach, links: Links): Links {
    Links(links.types - reach.types, (set m | m in links.machines && !CoversMachine(dir, reach, m)), links.categories)
  }

  predicate TypeInTenant(dir: Directory, t: TypeId) {
    t in dir.types && (dir.types[t].None? || dir.types[t] == Some(dir.space))
  }

  predicate MachineInTenant(dir: Directory, m: MachineId) {
    m in dir.machines && dir.machines[m].space == dir.space
  }

  predicate InTenant(dir: Directory, links: Links) {
    && (forall t | t in links.types :: TypeInTenant(dir, t))
    && (forall m | m in links.machines :: MachineInTenant(dir, m))
  }

  predicate InReach(dir: Directory, reach: Reach, links: Links) {
    links.categories == {} && links.types <= reach.types && forall m | m in links.machines :: CoversMachine(dir, reach, m)
  }

  // ---- Who a delegate may name -------------------------------------------------------------

  datatype Delegate = Delegate(role: Option<RoleId>, holders: set<UserId>)

  function HoldersOf(dir: Directory, role: RoleId): set<UserId> {
    set m | m in dir.memberships
          && var held := dir.memberships[m];
             held.space == dir.space && held.active && held.live && !held.superuser && held.role == Some(role)
      :: dir.memberships[m].user
  }

  predicate ActiveMember(dir: Directory, u: UserId) {
    exists m | m in dir.memberships ::
      dir.memberships[m].user == u && dir.memberships[m].space == dir.space && dir.memberships[m].active
  }

  function DelegateOf(dir: Directory, actor: UserId): Delegate {
    var own := First(set m | m in dir.memberships && dir.memberships[m].user == actor
                          && dir.memberships[m].space == dir.space && dir.memberships[m].active);
    if own.None? || dir.memberships[own.value].role.None? then Delegate(None, {})
    else Delegate(dir.memberships[own.value].role, HoldersOf(dir, dir.memberships[own.value].role.value))
  }

  predicate Manageable(d: Delegate, target: Target) {
    match target
    case ToRole(role) => d.role == Some(role)
    case ToUser(user) => user in d.holders
    case _ => true
  }

  // ---- Reading -----------------------------------------------------------------------------

  predicate FullyReachable(dir: Directory, reach: Reach, d: Delegate, row: Row) {
    && !row.links.Empty() && Manageable(d, row.target)
    && InTenant(dir, row.links) && InReach(dir, reach, row.links)
  }

  predicate PartlyOwned(dir: Directory, reach: Reach, row: Row) {
    row.target.Shared() && !Owned(dir, reach, row.links).Empty()
  }

  predicate Shown(dir: Directory, reach: Reach, d: Delegate, row: Row) {
    FullyReachable(dir, reach, d, row) || PartlyOwned(dir, reach, row)
  }

  datatype Kind = RoleKind | UserKind | RequesterKind | MembersKind

  /** A rule as it crosses the API; id lists are read as sets. */
  datatype Rule = Rule(kind: Kind, role: Option<RoleId>, user: Option<UserId>, scope: Option<Links>)

  function RuleOf(target: Target, links: Links): Rule {
    match target
    case ToRole(role) => Rule(RoleKind, Some(role), None, Some(links))
    case ToUser(user) => Rule(UserKind, None, Some(user), Some(links))
    case ToRequester => Rule(RequesterKind, None, None, Some(links))
    case ToMembers => Rule(MembersKind, None, None, Some(links))
  }

  /** A reachable row as it is, a partly owned one reduced to the delegate's links. */
  function Projection(dir: Directory, reach: Reach, d: Delegate, row: Row): Row {
    if FullyReachable(dir, reach, d, row) then row else row.(links := Owned(dir, reach, row.links))
  }

  function Filtered(order: seq<RowId>, keep: RowId -> bool): seq<RowId>
    decreases |order|
  {
    if order == [] then []
    else
      var last := order[|order| - 1];
      Filtered(order[..|order| - 1], keep) + if keep(last) then [last] else []
  }

  lemma {:induction false} FilteredHas(order: seq<RowId>, keep: RowId -> bool, r: RowId)
    ensures r in Filtered(order, keep) <==> r in order && keep(r)
    decreases |order|
  {
    if order != [] {
      FilteredHas(order[..|order| - 1], keep, r);
      assert r in order <==> r == order[|order| - 1] || r in order[..|order| - 1];
    }
  }

  function VisibleRow(dir: Directory, reach: Reach, d: Delegate, rows: map<RowId, Row>): RowId -> bool {
    r => r in rows && FullyReachable(dir, reach, d, rows[r])
  }

  function ProjectedRow(dir: Directory, reach: Reach, d: Delegate, rows: map<RowId, Row>): RowId -> bool {
    r => r in rows && !FullyReachable(dir, reach, d, rows[r]) && PartlyOwned(dir, reach, rows[r])
  }

  /** The rows behind the counts of policies a delegate is not shown whole. */
  function HiddenRow(dir: Directory, reach: Reach, d: Delegate, rows: map<RowId, Row>): RowId -> bool {
    r => r in rows && !FullyReachable(dir, reach, d, rows[r])
  }

  lemma FilterNext(order: seq<RowId>, i: nat, keep: RowId -> bool)
    requires i < |order|
    ensures Filtered(order[..i + 1], keep) == Filtered(order[..i], keep) + if keep(order[i]) then [order[i]] else []
  {
    assert order[..i + 1][..i] == order[..i];
  }

  /** Every row is shown whole or counted, and the rows shown at all are the visible and the
      projected ones. */
  lemma PayloadPartitions(dir: Directory, reach: Reach, d: Delegate, rows: map<RowId, Row>, order: seq<RowId>, r: RowId)
    requires forall q | q in order :: q in rows
    ensures var visible := Filtered(order, VisibleRow(dir, reach, d, rows));
            var projected := Filtered(order, ProjectedRow(dir, reach, d, rows));
            var hidden := Filtered(order, HiddenRow(dir, reach, d, rows));
            && (r in order <==> r in visible || r in hidden) && !(r in visible && r in hidden) && !(r in visible && r in projected)
            && (r in visible || r in projected <==> r in order && Shown(dir, reach, d, rows[r]))
  {
    FilteredHas(order, VisibleRow(dir, reach, d, rows), r);
    FilteredHas(order, ProjectedRow(dir, reach, d, rows), r);
    FilteredHas(order, HiddenRow(dir, reach, d, rows), r);
  }

  // ---- Validating --------------------------------------------------------------------------

  datatype RuleError = BadIdentity | ForeignRole | NotMember | NotSelectable | Duplicate | NoScope | BadTarget
                     | SpaceWide | Taken

  /** `delegate` is None for an actor whose reach is unlimited. */
  function Identify(dir: Directory, delegate: Option<Delegate>, rule: Rule): Result<Target, RuleError> {
    match rule.kind
    case RoleKind =>
      if rule.role.None? || rule.user.Some? then Failure(BadIdentity)
      else if rule.role.value !in dir.roles || dir.roles[rule.role.value] != dir.space then Failure(ForeignRole)
      else if delegate.Some? && delegate.value.role != rule.role then Failure(NotSelectable)
      else Success(ToRole(rule.role.value))
    case UserKind =>
      if rule.user.None? || rule.role.Some? then Failure(BadIdentity)
      else if !ActiveMember(dir, rule.user.value) then Failure(NotMember)
      else if delegate.Some? && rule.user.value !in delegate.value.holders then Failure(NotSelectable)
      else Success(ToUser(rule.user.value))
    case RequesterKind => if rule.role.Some? || rule.user.Some? then Failure(BadIdentity) else Success(ToRequester)
    case MembersKind => if rule.role.Some? || rule.user.Some? then Failure(BadIdentity) else Success(ToMembers)
  }

  function ScopeOf(rule: Rule): Links {
    if rule.scope.None? then NoLinks else rule.scope.value
  }

  function ResolveTargets(dir: Directory, reach: Reach, delegated: bool, scope: Links): Result<Links, RuleError> {
    if delegated && scope.Empty() then Failure(NoScope)
    else if !InTenant(dir, scope)
            || (exists c | c in scope.categories :: c !in dir.categories || dir.categories[c] != dir.space)
            || (delegated && !InReach(dir, reach, scope))
    then Failure(BadTarget)
    else Success(scope)
  }

  function Prepare(dir: Directory, reach: Reach, delegate: Option<Delegate>, rules: seq<Rule>, seen: set<Target>):
    Result<seq<Row>, RuleError>
  {
    if rules == [] then Success([])
    else
      match Identify(dir, delegate, rules[0])
      case Failure(error) => Failure(error)
      case Success(target) =>
        if target in seen then Failure(Duplicate)
        else
          match ResolveTargets(dir, reach, delegate.Some?, ScopeOf(rules[0]))
          case Failure(error) => Failure(error)
          case Success(links) =>
            match Prepare(dir, reach, delegate, rules[1..], seen + {target})
            case Failure(error) => Failure(error)
            case Success(rest) => Success([Row(target, links)] + rest)
  }

  // ---- Merging -----------------------------------------------------------------------------

  /** The last submitted rule for a shared target. */
  function SubmittedFor(rules: seq<Row>, target: Target): Option<Links>
    decreases |rules|
  {
    if rules == [] then None
    else if rules[|rules| - 1].target == target then Some(rules[|rules| - 1].links)
    else SubmittedFor(rules[..|rules| - 1], target)
  }

  /** The row with the delegate's links replaced; a row left without links goes. */
  function Merged(dir: Directory, reach: Reach, links: Links, submitted: Option<Links>): (r: Option<Links>)
    ensures r.Some? ==> !r.value.Empty()
  {
    var kept := Unowned(dir, reach, links);
    var added := if submitted.None? then NoLinks else submitted.value;
    var merged := Links(kept.types + added.types, kept.machines + added.machines, kept.categories);
    if merged.Empty() then None else Some(merged)
  }

  predicate Kept(dir: Directory, reach: Reach, delegate: Option<Delegate>, row: Row) {
    delegate.Some? && !FullyReachable(dir, reach, delegate.value, row)
  }

  /** What becomes of an existing row: dropped, kept as it is, or merged. */
  function Fate(dir: Directory, reach: Reach, delegate: Option<Delegate>, row: Row, rules: seq<Row>): Option<Row> {
    if !Kept(dir, reach, delegate, row) then None
    else if !row.target.Shared() || row.links.Empty() then Some(row)
    else
      match Merged(dir, reach, row.links, SubmittedFor(rules, row.target))
      case None => None
      case Some(links) => Some(row.(links := links))
  }

  predicate Blocked(dir: Directory, reach: Reach, delegate: Option<Delegate>, row: Row, rules: seq<Row>) {
    && Kept(dir, reach, delegate, row) && row.target.Shared() && row.links.Empty()
    && SubmittedFor(rules, row.target).Some?
  }

  predicate SomeBlocked(dir: Directory, reach: Reach, delegate: Option<Delegate>, rows: map<RowId, Row>, rules: seq<Row>) {
    exists r | r in rows :: Blocked(dir, reach, delegate, rows[r], rules)
  }

  function KeptRows(dir: Directory, reach: Reach, delegate: Option<Delegate>, rows: map<RowId, Row>): map<RowId, Row> {
    map r | r in rows && Kept(dir, reach, delegate, rows[r]) :: rows[r]
  }

  function Survivors(dir: Directory, reach: Reach, delegate: Option<Delegate>, rows: map<RowId, Row>, rules: seq<Row>):
    map<RowId, Row>
  {
    map r | r in rows && Fate(dir, reach, delegate, rows[r], rules).Some? :: Fate(dir, reach, delegate, rows[r], rules).value
  }

  /** Shared targets already expressed by editing a kept row. */
  function Handled(dir: Directory, reach: Reach, delegate: Option<Delegate>, rows: map<RowId, Row>): set<Target> {
    set r | r in rows && Kept(dir, reach, delegate, rows[r]) && rows[r].target.Shared() :: rows[r].target
  }

  predicate TargetUsed(rows: map<RowId, Row>, target: Target) {
    exists r | r in rows :: rows[r].target == target
  }

  function Created(rows: map<RowId, Row>, nextId: RowId, rules: seq<Row>, handled: set<Target>): Result<map<RowId, Row>, RuleError>
    decreases |rules|
  {
    if rules == [] then Success(rows)
    else if rules[0].target in handled then Created(rows, nextId, rules[1..], handled)
    else if TargetUsed(rows, rules[0].target) then Failure(Taken)
    else Created(rows[nextId := rules[0]], nextId + 1, rules[1..], handled)
  }

  function Replaced(dir: Directory, reach: Reach, delegate: Option<Delegate>, rows: map<RowId, Row>, nextId: RowId,
                    rules: seq<Row>): Result<map<RowId, Row>, RuleError>
  {
    if SomeBlocked(dir, reach, delegate, rows, rules) then Failure(SpaceWide)
    else Created(Survivors(dir, reach, delegate, rows, rules), nextId, rules, Handled(dir, reach, delegate, rows))
  }

  /** Whether a row's rule applies to an alert about some subject. */
  datatype Subject = Subject(machine: Option<MachineId>, kind: Option<TypeId>, category: Option<CategoryId>)

  predicate Covers(links: Links, subject: Option<Subject>) {
    || links.Empty()
    || (subject.Some? &&
        (|| (subject.value.machine.Some? && subject.value.machine.value in links.machines)
         || (subject.value.kind.Some? && subject.value.kind.value in links.types)
         || (subject.value.category.Some? && subject.value.category.value in links.categories)))
  }

  // ---- The services ------------------------------------------------------------------------

  method PrepareRules(dir: Directory, reach: Reach, delegate: Option<Delegate>, rules: seq<Rule>)
    returns (prepared: Result<seq<Row>, RuleError>)
    ensures prepared == Prepare(dir, reach, delegate, rules, {})
  {
    var ready, seen := [], {};
    assert rules[0..] == rules;
    PrefixedNone(Prepare(dir, reach, delegate, rules, {}));
    for i := 0 to |rules|
      invariant Prepare(dir, reach, delegate, rules, {}) == Prefixed(ready, Prepare(dir, reach, delegate, rules[i..], seen))
    {
      assert rules[i..][1..] == rules[i + 1..];
      var identified := Identify(dir, delegate, rules[i]);
      if identified.Failure? {
        return Failure(identified.error);
      }
      var target := identified.value;
      if target in seen {
        return Failure(Duplicate);
      }
      var resolved := ResolveTargets(dir, reach, delegate.Some?, ScopeOf(rules[i]));
      if resolved.Failure? {
        return Failure(resolved.error);
      }
      PrefixedOnce(ready, Row(target, resolved.value), Prepare(dir, reach, delegate, rules[i + 1..], seen + {target}));
      ready, seen := ready + [Row(target, resolved.value)], seen + {target};
    }
    assert rules[|rules|..] == [] && ready + [] == ready;
    prepared := Success(ready);
  }

  function Prefixed(ready: seq<Row>, rest: Result<seq<Row>, RuleError>): Result<seq<Row>, RuleError> {
    match rest
    case Failure(error) => Failure(error)
    case Success(more) => Success(ready + more)
  }

  lemma PrefixedNone(rest: Result<seq<Row>, RuleError>)
    ensures Prefixed([], rest) == rest
  {
    if rest.Success? { assert [] + rest.value == rest.value; }
  }

  lemma PrefixedOnce(ready: seq<Row>, row: Row, rest: Result<seq<Row>, RuleError>)
    ensures Prefixed(ready, Prefixed([row], rest)) == Prefixed(ready + [row], rest)
  {
    if rest.Success? { assert ready + ([row] + rest.value) == ready + [row] + rest.value; }
  }

  class RuleTable {
    var rows: map<RowId, Row>
    var nextId: RowId

    ghost predicate Valid() reads this {
      && UniqueTargets(rows)
      && forall r | r in rows :: r < nextId
    }

    constructor ()
      ensures Valid() && rows == map[]
    {
      rows, nextId := map[], 0;
    }

    /** The rows a delegate may edit whole, the shared rows shown reduced to their share, and the
        rows only counted. */
    method Payload(dir: Directory, reach: Reach, d: Delegate, order: seq<RowId>)
      returns (visible: seq<RowId>, projected: seq<RowId>, hidden: seq<RowId>)
      requires forall r | r in order :: r in rows
      ensures visible == Filtered(order, VisibleRow(dir, reach, d, rows))
      ensures projected == Filtered(order, ProjectedRow(dir, reach, d, rows))
      ensures hidden == Filtered(order, HiddenRow(dir, reach, d, rows))
    {
      visible, projected, hidden := [], [], [];
      ghost var v, p := VisibleRow(dir, reach, d, rows), ProjectedRow(dir, reach, d, rows);
      ghost var h := HiddenRow(dir, reach, d, rows);
      var i := 0;
      while i < |order|
        invariant i <= |order|
        invariant visible == Filtered(order[..i], v)
        invariant projected == Filtered(order[..i], p)
        invariant hidden == Filtered(order[..i], h)
      {
        var r := order[i];
        FilterNext(order, i, v);
        FilterNext(order, i, p);
        FilterNext(order, i, h);
        i := i + 1;
        if FullyReachable(dir, reach, d, rows[r]) {
          visible := visible + [r];
        } else {
          if PartlyOwned(dir, reach, rows[r]) {
            projected := projected + [r];
          }
          hidden := hidden + [r];
        }
      }
      assert order[..i] == order;
    }

    /** Replace the caller's partition; a refusal leaves everything as it was. */
    method ReplaceRecipientRules(dir: Directory, reach: Reach, delegate: Option<Delegate>, rules: seq<Row>)
      returns (refused: Option<RuleError>)
      requires Valid()
      modifies this
      ensures Valid()
      ensures var outcome := Replaced(dir, reach, delegate, old(rows), old(nextId), rules);
              && (refused.Some? <==> outcome.Failure?)
              && (refused.Some? ==> outcome.error == refused.value && rows == old(rows) && nextId == old(nextId))
              && (refused.None? ==> rows == outcome.value)
    {
      var saved, firstId := rows, nextId;
      KeptOnly(dir, reach, delegate, rows, rules);
      SurvivorsUnique(dir, reach, delegate, rows, rules);
      rows := KeptRows(dir, reach, delegate, rows);
      var merge, handled := MergePreserved(dir, reach, delegate, rules);
      if merge {
        rows := saved;
        return Some(SpaceWide);
      }
      var taken := CreateRules(rules, handled);
      if taken {
        rows, nextId := saved, firstId;
        return Some(Taken);
      }
      return None;
    }

    method CreateRules(rules: seq<Row>, handled: set<Target>) returns (taken: bool)
      requires Valid()
      modifies this
      ensures var outcome := Created(old(rows), old(nextId), rules, handled);
              if taken then outcome == Failure(Taken) else outcome == Success(rows)
      ensures Valid()
    {
      assert rules[0..] == rules;
      for i := 0 to |rules|
        invariant Created(old(rows), old(nextId), rules, handled) == Created(rows, nextId, rules[i..], handled)
        invariant Valid()
      {
        assert rules[i..][1..] == rules[i + 1..];
        if rules[i].target !in handled {
          if TargetUsed(rows, rules[i].target) {
            return true;
          }
          rows := rows[nextId := rules[i]];
          nextId := nextId + 1;
        }
      }
      assert rules[|rules|..] == [];
      return false;
    }

    /** Edit the kept shared rows in place and say which targets that already expressed. */
    method MergePreserved(dir: Directory, reach: Reach, delegate: Option<Delegate>, rules: seq<Row>)
      returns (refused: bool, handled: set<Target>)
      requires forall r | r in rows :: Kept(dir, reach, delegate, rows[r])
      modifies this`rows
      ensures refused <==> SomeBlocked(dir, reach, delegate, old(rows), rules)
      ensures !refused ==> rows == Survivors(dir, reach, delegate, old(rows), rules)
      ensures !refused ==> handled == Handled(dir, reach, delegate, old(rows))
    {
      handled := {};
      ghost var was := rows;
      var todo := rows.Keys;
      MergeNone(dir, reach, delegate, was, rules);
      assert was.Keys - todo == {};
      while todo != {}
        invariant todo <= was.Keys
        invariant rows == PartlyMerged(dir, reach, delegate, was, was.Keys - todo, rules)
        invariant handled == HandledAmong(was, was.Keys - todo)
        invariant NoneBlocked(dir, reach, delegate, was, was.Keys - todo, rules)
        decreases |todo|
      {
        var r :| r in todo;
        MergeOneMore(dir, reach, delegate, was, was.Keys - todo, r, rules);
        assert was.Keys - (todo - {r}) == was.Keys - todo + {r};
        handled := handled + SharedTarget(rows[r]);
        var blocked := MergeRow(dir, reach, delegate, r, rules);
        if blocked {
          return true, handled;
        }
        todo := todo - {r};
      }
      MergeAll(dir, reach, delegate, was, rules);
      assert was.Keys - todo == was.Keys;
      return false, handled;
    }

    method MergeRow(dir: Directory, reach: Reach, delegate: Option<Delegate>, r: RowId, rules: seq<Row>) returns (blocked: bool)
      requires r in rows && Kept(dir, reach, delegate, rows[r])
      modifies this`rows
      ensures blocked <==> Blocked(dir, reach, delegate, old(rows)[r], rules)
      ensures !blocked ==> var fate := Fate(dir, reach, delegate, old(rows)[r], rules);
                           rows == if fate.Some? then old(rows)[r := fate.value] else old(rows) - {r}
    {
      var row := rows[r];
      if !row.target.Shared() {
        return false;
      }
      var submitted := SubmittedFor(rules, row.target);
      if row.links.Empty() {
        return submitted.Some?;
      }
      ReplaceOwnedLinks(dir, reach, r, submitted);
      return false;
    }

    /** Strip the delegate's links from a row and add the submitted ones; never leave it linkless. */
    method ReplaceOwnedLinks(dir: Directory, reach: Reach, r: RowId, submitted: Option<Links>)
      requires r in rows
      modifies this`rows
      ensures var merged := Merged(dir, reach, old(rows)[r].links, submitted);
              rows == if merged.Some? then old(rows)[r := old(rows)[r].(links := merged.value)] else old(rows) - {r}
    {
      var row := rows[r];
      var owned := Owned(dir, reach, row.links);
      var links := row.links.(types := row.links.types - owned.types, machines := row.links.machines - owned.machines);
      if submitted.Some? {
        links := links.(types := links.types + submitted.value.types, machines := links.machines + submitted.value.machines);
      }
      assert row.links.types - owned.types == Unowned(dir, reach, row.links).types;
      assert row.links.machines - owned.machines == Unowned(dir, reach, row.links).machines;
      assert submitted.None? ==> links.types + {} == links.types && links.machines + {} == links.machines;
      rows := if links.Empty() then rows - {r} else rows[r := row.(links := links)];
    }
  }

  ghost predicate UniqueTargets(rows: map<RowId, Row>) {
    forall a, b | a in rows && b in rows && rows[a].target == rows[b].target :: a == b
  }

  /** The rows once those in `done` have met their fate. */
  function PartlyMerged(dir: Directory, reach: Reach, delegate: Option<Delegate>, rows: map<RowId, Row>,
                        done: set<RowId>, rules: seq<Row>): map<RowId, Row>
  {
    map r | r in rows && (r in done ==> Fate(dir, reach, delegate, rows[r], rules).Some?) ::
      if r in done then Fate(dir, reach, delegate, rows[r], rules).value else rows[r]
  }

  ghost predicate NoneBlocked(dir: Directory, reach: Reach, delegate: Option<Delegate>, rows: map<RowId, Row>,
                              done: set<RowId>, rules: seq<Row>)
  {
    forall r | r in done && r in rows :: !Blocked(dir, reach, delegate, rows[r], rules)
  }

  function SharedTarget(row: Row): set<Target> {
    if row.target.Shared() then {row.target} else {}
  }

  function HandledAmong(rows: map<RowId, Row>, done: set<RowId>): set<Target> {
    set r | r in done && r in rows && rows[r].target.Shared() :: rows[r].target
  }

  lemma MergeOneMore(dir: Directory, reach: Reach, delegate: Option<Delegate>, rows: map<RowId, Row>,
                     done: set<RowId>, r: RowId, rules: seq<Row>)
    requires r in rows && r !in done && NoneBlocked(dir, reach, delegate, rows, done, rules)
    ensures var before := PartlyMerged(dir, reach, delegate, rows, done, rules);
            var fate := Fate(dir, reach, delegate, rows[r], rules);
            && r in before && before[r] == rows[r]
            && PartlyMerged(dir, reach, delegate, rows, done + {r}, rules) == if fate.Some? then before[r := fate.value] else before - {r}
    ensures HandledAmong(rows, done + {r}) == HandledAmong(rows, done) + SharedTarget(rows[r])
    ensures if Blocked(dir, reach, delegate, rows[r], rules) then SomeBlocked(dir, reach, delegate, rows, rules)
            else NoneBlocked(dir, reach, delegate, rows, done + {r}, rules)
  {}

  lemma MergeNone(dir: Directory, reach: Reach, delegate: Option<Delegate>, rows: map<RowId, Row>, rules: seq<Row>)
    ensures PartlyMerged(dir, reach, delegate, rows, {}, rules) == rows
  {}

  lemma MergeAll(dir: Directory, reach: Reach, delegate: Option<Delegate>, rows: map<RowId, Row>, rules: seq<Row>)
    requires forall r | r in rows :: Kept(dir, reach, delegate, rows[r])
    ensures PartlyMerged(dir, reach, delegate, rows, rows.Keys, rules) == Survivors(dir, reach, delegate, rows, rules)
    ensures HandledAmong(rows, rows.Keys) == Handled(dir, reach, delegate, rows)
    ensures NoneBlocked(dir, reach, delegate, rows, rows.Keys, rules) ==> !SomeBlocked(dir, reach, delegate, rows, rules)
  {
    assert PartlyMerged(dir, reach, delegate, rows, rows.Keys, rules) == Survivors(dir, reach, delegate, rows, rules);
  }

  lemma KeptOnly(dir: Directory, reach: Reach, delegate: Option<Delegate>, rows: map<RowId, Row>, rules: seq<Row>)
    ensures var kept := KeptRows(dir, reach, delegate, rows);
            && (SomeBlocked(dir, reach, delegate, kept, rules) <==> SomeBlocked(dir, reach, delegate, rows, rules))
            && Survivors(dir, reach, delegate, kept, rules) == Survivors(dir, reach, delegate, rows, rules)
            && Handled(dir, reach, delegate, kept) == Handled(dir, reach, delegate, rows)
  {
    var kept := KeptRows(dir, reach, delegate, rows);
    assert Survivors(dir, reach, delegate, kept, rules) == Survivors(dir, reach, delegate, rows, rules);
    if SomeBlocked(dir, reach, delegate, rows, rules) {
      var r :| r in rows && Blocked(dir, reach, delegate, rows[r], rules);
      assert r in kept;
    }
    if SomeBlocked(dir, reach, delegate, kept, rules) {
      var r :| r in kept && Blocked(dir, reach, delegate, kept[r], rules);
      assert r in rows && rows[r] == kept[r];
    }
    forall t | t in Handled(dir, reach, delegate, rows) ensures t in Handled(dir, reach, delegate, kept) {
      var r :| r in rows && Kept(dir, reach, delegate, rows[r]) && rows[r].target.Shared() && rows[r].target == t;
      assert r in kept && kept[r] == rows[r];
    }
  }

  lemma SurvivorsUnique(dir: Directory, reach: Reach, delegate: Option<Delegate>, rows: map<RowId, Row>, rules: seq<Row>)
    requires UniqueTargets(rows)
    ensures UniqueTargets(Survivors(dir, reach, delegate, rows, rules))
  {
    var after := Survivors(dir, reach, delegate, rows, rules);
    assert forall r | r in after :: r in rows && after[r].target == rows[r].target;
  }

  // ---- What a merge does to a shared row -----------------------------------------------------

  /** Links outside the delegate's reach stay, and what they own afterwards is what they sent. */
  lemma MergeIsExact(dir: Directory, reach: Reach, links: Links, submitted: Option<Links>)
    requires submitted.Some? ==> InReach(dir, reach, submitted.value)
    ensures var merged := Merged(dir, reach, links, submitted);
            && (merged.Some? ==>
                  && Unowned(dir, reach, merged.value) == Unowned(dir, reach, links)
                  && Owned(dir, reach, merged.value) == (if submitted.Some? then submitted.value else NoLinks))
            && (merged.None? <==> Unowned(dir, reach, links).Empty() && (submitted.Some? ==> submitted.value.Empty()))
  {
    var kept := Unowned(dir, reach, links);
    var added := if submitted.None? then NoLinks else submitted.value;
    var merged := Merged(dir, reach, links, submitted);
    if merged.Some? {
      assert Unowned(dir, reach, merged.value).types == kept.types;
      assert Unowned(dir, reach, merged.value).machines == kept.machines;
      assert Owned(dir, reach, merged.value).types == added.types;
      assert Owned(dir, reach, merged.value).machines == added.machines;
    } else {
      assert kept.types + added.types == {} && kept.machines + added.machines == {};
      assert kept.types == {} && kept.machines == {} && added.types == {} && added.machines == {};
    }
  }

  /** A second submission undoes the first. */
  lemma LastMergeWins(dir: Directory, reach: Reach, links: Links, first: Option<Links>, last: Option<Links>)
    requires first.Some? ==> InReach(dir, reach, first.value)
    ensures var once := Merged(dir, reach, links, first);
            once.Some? ==> Merged(dir, reach, once.value, last) == Merged(dir, reach, links, last)
  {
    MergeIsExact(dir, reach, links, first);
  }

  /** Sending back one's own share changes nothing. */
  lemma MergingOwnShareIsIdentity(dir: Directory, reach: Reach, links: Links)
    requires !links.Empty()
    ensures Merged(dir, reach, links, Some(Owned(dir, reach, links))) == Some(links)
  {
    var kept, owned := Unowned(dir, reach, links), Owned(dir, reach, links);
    assert kept.types + owned.types == links.types;
    assert kept.machines + owned.machines == links.machines;
  }

  /** When a kept shared row with links loses them all: exactly when every link was owned and one
      of them lies outside the tenant, and nothing is submitted in their place. */
  lemma FailSafeFiresExactly(dir: Directory, reach: Reach, d: Delegate, row: Row, submitted: Option<Links>)
    requires Kept(dir, reach, Some(d), row) && row.target.Shared() && !row.links.Empty()
    requires submitted.Some? ==> InReach(dir, reach, submitted.value) && !submitted.value.Empty()
    ensures Merged(dir, reach, row.links, submitted).None?
       <==> submitted.None? && InReach(dir, reach, row.links) && !InTenant(dir, row.links)
  {
    MergeIsExact(dir, reach, row.links, submitted);
    UnownedEmptyExactly(dir, reach, row.links);
  }

  lemma UnownedEmptyExactly(dir: Directory, reach: Reach, links: Links)
    ensures Unowned(dir, reach, links).Empty() <==> InReach(dir, reach, links)
  {
    var unowned := Unowned(dir, reach, links);
    if unowned.Empty() {
      forall t | t in links.types ensures t in reach.types { assert t !in unowned.types; }
      forall m | m in links.machines ensures CoversMachine(dir, reach, m) { assert m !in unowned.machines; }
    }
  }

  /** One foreign machine of an in-reach global type is enough. */
  lemma ForeignMachineEmptiesTheRow(dir: Directory, t: TypeId, m: MachineId)
    requires t in dir.types && dir.types[t].None? && m in dir.machines && dir.machines[m].kind == t
    requires dir.machines[m].space != dir.space
    ensures var reach := Reach({t}, {});
            var row := Row(ToRequester, Links({}, {m}, {}));
            && Kept(dir, reach, Some(Delegate(None, {})), row)
            && Fate(dir, reach, Some(Delegate(None, {})), row, []) == None
  {
    var reach, links := Reach({t}, {}), Links({}, {m}, {});
    assert m in links.machines && !MachineInTenant(dir, m);
    assert !FullyReachable(dir, reach, Delegate(None, {}), Row(ToRequester, links));
    assert Unowned(dir, reach, links).machines == {};
    assert SubmittedFor([], ToRequester) == None;
  }

  // ---- What a delegate's save can change -----------------------------------------------------

  /** Subjects no part of which the delegate's reach touches; an alert may name no subject. */
  predicate Elsewhere(dir: Directory, reach: Reach, subject: Option<Subject>) {
    subject.Some? ==>
      && (subject.value.machine.Some? ==> !CoversMachine(dir, reach, subject.value.machine.value))
      && (subject.value.kind.Some? ==> subject.value.kind.value !in reach.types)
  }

  predicate Notifies(rows: map<RowId, Row>, target: Target, subject: Option<Subject>) {
    exists r | r in rows :: rows[r].target == target && Covers(rows[r].links, subject)
  }

  predicate Submittable(dir: Directory, reach: Reach, rules: seq<Row>) {
    && (forall i | 0 <= i < |rules| :: InReach(dir, reach, rules[i].links) && !rules[i].links.Empty())
    && (forall i, j | 0 <= i < j < |rules| :: rules[i].target != rules[j].target)
  }

  lemma {:induction false} PreparedIsSubmittable(dir: Directory, reach: Reach, d: Delegate, rules: seq<Rule>, seen: set<Target>)
    requires Prepare(dir, reach, Some(d), rules, seen).Success?
    ensures Submittable(dir, reach, Prepare(dir, reach, Some(d), rules, seen).value)
    ensures forall row | row in Prepare(dir, reach, Some(d), rules, seen).value :: row.target !in seen
  {
    if rules != [] {
      var target := Identify(dir, Some(d), rules[0]).value;
      PreparedIsSubmittable(dir, reach, d, rules[1..], seen + {target});
    }
  }

  lemma ReachCoversNothingElsewhere(dir: Directory, reach: Reach, links: Links, subject: Option<Subject>)
    requires InReach(dir, reach, links) && !links.Empty() && Elsewhere(dir, reach, subject)
    ensures !Covers(links, subject)
  {}

  lemma {:induction false} SubmittedIsSent(dir: Directory, reach: Reach, rules: seq<Row>, target: Target)
    requires Submittable(dir, reach, rules)
    ensures SubmittedFor(rules, target).Some? ==> Row(target, SubmittedFor(rules, target).value) in rules
    ensures SubmittedFor(rules, target).Some? ==>
              InReach(dir, reach, SubmittedFor(rules, target).value) && !SubmittedFor(rules, target).value.Empty()
    decreases |rules|
  {
    if rules != [] && rules[|rules| - 1].target != target {
      SubmittedIsSent(dir, reach, rules[..|rules| - 1], target);
    }
  }

  /** Elsewhere, a kept row covers after the merge what it covered before. */
  lemma FateElsewhere(dir: Directory, reach: Reach, d: Delegate, row: Row, rules: seq<Row>, subject: Option<Subject>)
    requires Submittable(dir, reach, rules) && Elsewhere(dir, reach, subject)
    ensures var fate := Fate(dir, reach, Some(d), row, rules);
            (fate.Some? && Covers(fate.value.links, subject)) <==> Covers(row.links, subject)
    ensures Fate(dir, reach, Some(d), row, rules).Some? ==> Fate(dir, reach, Some(d), row, rules).value.target == row.target
  {
    if !Kept(dir, reach, Some(d), row) {
      ReachCoversNothingElsewhere(dir, reach, row.links, subject);
    } else if row.target.Shared() && !row.links.Empty() {
      var submitted := SubmittedFor(rules, row.target);
      SubmittedIsSent(dir, reach, rules, row.target);
      MergeIsExact(dir, reach, row.links, submitted);
      MergeElsewhere(dir, reach, row.links, submitted, subject);
    }
  }

  lemma MergeElsewhere(dir: Directory, reach: Reach, links: Links, submitted: Option<Links>, subject: Option<Subject>)
    requires submitted.Some? ==> InReach(dir, reach, submitted.value)
    requires Elsewhere(dir, reach, subject) && !links.Empty()
    ensures var merged := Merged(dir, reach, links, submitted);
            (merged.Some? && Covers(merged.value, subject)) <==> Covers(links, subject)
  {
    var kept := Unowned(dir, reach, links);
    if subject.Some? {
      var s := subject.value;
      assert s.machine.Some? ==> (s.machine.value in kept.machines <==> s.machine.value in links.machines);
      assert s.kind.Some? ==> (s.kind.value in kept.types <==> s.kind.value in links.types);
    }
  }

  lemma {:induction false} CreatedElsewhere(dir: Directory, reach: Reach, rows: map<RowId, Row>, nextId: RowId, rules: seq<Row>,
                                            handled: set<Target>, target: Target, subject: Option<Subject>)
    requires Submittable(dir, reach, rules) && Elsewhere(dir, reach, subject)
    requires forall r | r in rows :: r < nextId
    requires Created(rows, nextId, rules, handled).Success?
    ensures Notifies(Created(rows, nextId, rules, handled).value, target, subject) <==> Notifies(rows, target, subject)
    decreases |rules|
  {
    if rules != [] {
      var rest := rules[1..];
      if rules[0].target in handled {
        CreatedElsewhere(dir, reach, rows, nextId, rest, handled, target, subject);
      } else {
        var more := rows[nextId := rules[0]];
        CreatedElsewhere(dir, reach, more, nextId + 1, rest, handled, target, subject);
        ReachCoversNothingElsewhere(dir, reach, rules[0].links, subject);
        AddedElsewhere(rows, nextId, rules[0], target, subject);
      }
    }
  }

  lemma AddedElsewhere(rows: map<RowId, Row>, id: RowId, row: Row, target: Target, subject: Option<Subject>)
    requires id !in rows && !Covers(row.links, subject)
    ensures Notifies(rows[id := row], target, subject) <==> Notifies(rows, target, subject)
  {
    var more := rows[id := row];
    if Notifies(rows, target, subject) {
      var r :| r in rows && rows[r].target == target && Covers(rows[r].links, subject);
      assert r in more && more[r] == rows[r];
    }
  }

  /** Whatever a delegate submits, who is notified about anything outside their reach, alerts
      without a subject included, is the same after the save as before. */
  lemma DelegateChangesNothingElsewhere(dir: Directory, reach: Reach, d: Delegate, rows: map<RowId, Row>, nextId: RowId,
                                        rules: seq<Rule>, target: Target, subject: Option<Subject>)
    requires forall r | r in rows :: r < nextId
    requires Elsewhere(dir, reach, subject)
    requires Prepare(dir, reach, Some(d), rules, {}).Success?
    requires Replaced(dir, reach, Some(d), rows, nextId, Prepare(dir, reach, Some(d), rules, {}).value).Success?
    ensures Notifies(Replaced(dir, reach, Some(d), rows, nextId, Prepare(dir, reach, Some(d), rules, {}).value).value, target, subject)
       <==> Notifies(rows, target, subject)
  {
    var sent := Prepare(dir, reach, Some(d), rules, {}).value;
    PreparedIsSubmittable(dir, reach, d, rules, {});
    var after := Survivors(dir, reach, Some(d), rows, sent);
    CreatedElsewhere(dir, reach, after, nextId, sent, Handled(dir, reach, Some(d), rows), target, subject);
    forall r | r in rows {
      FateElsewhere(dir, reach, d, rows[r], sent, subject);
    }
    if Notifies(rows, target, subject) {
      var r :| r in rows && rows[r].target == target && Covers(rows[r].links, subject);
      assert r in after && after[r].target == target && Covers(after[r].links, subject);
    }
  }

  /** A space-wide row is never narrowed, widened or removed by a delegate. */
  lemma SpaceWideRowsStay(dir: Directory, reach: Reach, d: Delegate, row: Row, rules: seq<Row>)
    requires row.links.Empty()
    ensures Fate(dir, reach, Some(d), row, rules) == Some(row)
  {}

  // ---- The round trip ------------------------------------------------------------------------

  /** What a delegate gets and sends back, row by row. */
  function Sent(dir: Directory, reach: Reach, d: Delegate, rows: map<RowId, Row>, shown: seq<RowId>): seq<Rule>
    requires forall r | r in shown :: r in rows
  {
    seq(|shown|, i requires 0 <= i < |shown| =>
      var row := Projection(dir, reach, d, rows[shown[i]]); RuleOf(row.target, row.links))
  }

  /** A shown rule is accepted exactly when its role, if it names one, is the tenant's own and its
      links are. */
  predicate Acceptable(dir: Directory, reach: Reach, d: Delegate, row: Row) {
    && (row.target.ToRole? ==> row.target.role in dir.roles && dir.roles[row.target.role] == dir.space)
    && InTenant(dir, Projection(dir, reach, d, row).links)
  }

  lemma ShownRuleAccepted(dir: Directory, reach: Reach, actor: UserId, row: Row)
    requires Shown(dir, reach, DelegateOf(dir, actor), row)
    ensures var d := DelegateOf(dir, actor);
            var shown := Projection(dir, reach, d, row);
            var rule := RuleOf(shown.target, shown.links);
            && (Identify(dir, Some(d), rule).Success? ==> Identify(dir, Some(d), rule).value == row.target)
            && (Identify(dir, Some(d), rule).Success? && ResolveTargets(dir, reach, true, ScopeOf(rule)).Success?
                <==> Acceptable(dir, reach, d, row))
            && (ResolveTargets(dir, reach, true, ScopeOf(rule)).Success? ==>
                  ResolveTargets(dir, reach, true, ScopeOf(rule)).value == shown.links)
  {
    var d := DelegateOf(dir, actor);
    var shown := Projection(dir, reach, d, row);
    assert shown.target == row.target;
    assert InReach(dir, reach, shown.links) && !shown.links.Empty();
    if row.target.ToUser? {
      assert FullyReachable(dir, reach, d, row);
      var m :| m in dir.memberships && dir.memberships[m].user == row.target.user
               && dir.memberships[m].space == dir.space && dir.memberships[m].active;
      assert ActiveMember(dir, row.target.user);
    }
  }

  predicate Projections(dir: Directory, reach: Reach, d: Delegate, rows: map<RowId, Row>, shown: seq<RowId>, rules: seq<Row>)
    requires forall r | r in shown :: r in rows
  {
    |rules| == |shown| && forall i | 0 <= i < |shown| :: rules[i] == Projection(dir, reach, d, rows[shown[i]])
  }

  lemma {:induction false} PreparedExactly(dir: Directory, reach: Reach, actor: UserId, rows: map<RowId, Row>,
                                           shown: seq<RowId>, seen: set<Target>)
    requires UniqueTargets(rows)
    requires forall r | r in shown :: r in rows && Shown(dir, reach, DelegateOf(dir, actor), rows[r]) && rows[r].target !in seen
    requires forall i, j | 0 <= i < j < |shown| :: shown[i] != shown[j]
    ensures var d := DelegateOf(dir, actor);
            var prepared := Prepare(dir, reach, Some(d), Sent(dir, reach, d, rows, shown), seen);
            && (prepared.Success? <==> forall r | r in shown :: Acceptable(dir, reach, d, rows[r]))
            && (prepared.Success? ==> Projections(dir, reach, d, rows, shown, prepared.value))
    decreases |shown|
  {
    if shown != [] {
      var d := DelegateOf(dir, actor);
      var r, rest := shown[0], shown[1..];
      var rules := Sent(dir, reach, d, rows, shown);
      assert rules[1..] == Sent(dir, reach, d, rows, rest);
      ShownRuleAccepted(dir, reach, actor, rows[r]);
      PreparedExactly(dir, reach, actor, rows, rest, seen + {rows[r].target});
      assert forall q :: q in shown <==> q == r || q in rest;
      var row := Projection(dir, reach, d, rows[r]);
      assert rules[0] == RuleOf(row.target, row.links) && row.target == rows[r].target;
    }
  }

  /** An unmodified form is accepted exactly when every shown row is the tenant's own; a row that
      is fully reachable fails only through its role, a projected one only through its links. */
  lemma RoundTripAcceptedExactly(dir: Directory, reach: Reach, actor: UserId, rows: map<RowId, Row>, shown: seq<RowId>)
    requires UniqueTargets(rows)
    requires forall r :: r in shown <==> r in rows && Shown(dir, reach, DelegateOf(dir, actor), rows[r])
    requires forall i, j | 0 <= i < j < |shown| :: shown[i] != shown[j]
    ensures var d := DelegateOf(dir, actor);
            Prepare(dir, reach, Some(d), Sent(dir, reach, d, rows, shown), {}).Success?
            <==> && (forall r | r in rows && FullyReachable(dir, reach, d, rows[r]) && rows[r].target.ToRole? ::
                       rows[r].target.role in dir.roles && dir.roles[rows[r].target.role] == dir.space)
                 && (forall r | r in rows && PartlyOwned(dir, reach, rows[r]) ::
                       InTenant(dir, Owned(dir, reach, rows[r].links)))
  {
    var d := DelegateOf(dir, actor);
    PreparedExactly(dir, reach, actor, rows, shown, {});
    forall r | r in rows && FullyReachable(dir, reach, d, rows[r]) && PartlyOwned(dir, reach, rows[r])
      ensures InTenant(dir, Owned(dir, reach, rows[r].links))
    {}
  }

  /** `shown` lists the rows the delegate is shown, once each. */
  ghost predicate ShownRows(dir: Directory, reach: Reach, d: Delegate, rows: map<RowId, Row>, shown: seq<RowId>) {
    && (forall r :: r in shown <==> r in rows && Shown(dir, reach, d, rows[r]))
    && (forall i, j | 0 <= i < j < |shown| :: shown[i] != shown[j])
  }

  lemma {:induction false} SubmittedIs(rules: seq<Row>, i: nat)
    requires i < |rules| && forall a, b | 0 <= a < b < |rules| :: rules[a].target != rules[b].target
    ensures SubmittedFor(rules, rules[i].target) == Some(rules[i].links)
    decreases |rules|
  {
    if i < |rules| - 1 { SubmittedIs(rules[..|rules| - 1], i); }
  }

  lemma {:induction false} NotSubmitted(rules: seq<Row>, target: Target)
    requires forall i | 0 <= i < |rules| :: rules[i].target != target
    ensures SubmittedFor(rules, target).None?
    decreases |rules|
  {
    if rules != [] { NotSubmitted(rules[..|rules| - 1], target); }
  }

  /** A kept row comes back from an unmodified form as it was. */
  lemma KeptRowUnchanged(dir: Directory, reach: Reach, d: Delegate, rows: map<RowId, Row>, shown: seq<RowId>,
                         rules: seq<Row>, r: RowId)
    requires UniqueTargets(rows) && ShownRows(dir, reach, d, rows, shown) && Projections(dir, reach, d, rows, shown, rules)
    requires forall a, b | 0 <= a < b < |rules| :: rules[a].target != rules[b].target
    requires r in rows && Kept(dir, reach, Some(d), rows[r])
    ensures Fate(dir, reach, Some(d), rows[r], rules) == Some(rows[r])
    ensures !Blocked(dir, reach, Some(d), rows[r], rules)
  {
    var row := rows[r];
    if row.target.Shared() {
      var submitted := SubmittedFor(rules, row.target);
      if r in shown {
        var i :| 0 <= i < |shown| && shown[i] == r;
        SubmittedIs(rules, i);
        assert submitted == Some(Owned(dir, reach, row.links));
        assert !row.links.Empty();
        MergingOwnShareIsIdentity(dir, reach, row.links);
      } else {
        forall i | 0 <= i < |rules| ensures rules[i].target != row.target {
          assert shown[i] in shown && rules[i].target == rows[shown[i]].target;
        }
        NotSubmitted(rules, row.target);
        if !row.links.Empty() {
          MergingOwnShareIsIdentity(dir, reach, row.links);
          assert Owned(dir, reach, row.links) == NoLinks;
        }
      }
    }
  }

  lemma {:induction false} CreatedFresh(rows: map<RowId, Row>, nextId: RowId, rules: seq<Row>, handled: set<Target>)
    requires forall r | r in rows :: r < nextId
    requires forall a, b | 0 <= a < b < |rules| :: rules[a].target != rules[b].target
    requires forall rule | rule in rules && rule.target !in handled :: !TargetUsed(rows, rule.target)
    ensures var created := Created(rows, nextId, rules, handled);
            && created.Success?
            && (forall r | r in rows :: r in created.value && created.value[r] == rows[r])
            && (forall row :: row in created.value.Values <==> row in rows.Values || (row in rules && row.target !in handled))
    decreases |rules|
  {
    if rules != [] {
      var first, rest := rules[0], rules[1..];
      assert forall row :: row in rules <==> row == first || row in rest;
      if first.target in handled {
        CreatedFresh(rows, nextId, rest, handled);
      } else {
        assert first in rules;
        var more := rows[nextId := first];
        assert forall row :: row in more.Values <==> row in rows.Values || row == first by {
          assert more[nextId] == first && forall r | r in rows :: more[r] == rows[r];
        }
        forall rule | rule in rest && rule.target !in handled ensures !TargetUsed(more, rule.target) {
          assert rule in rules && !TargetUsed(rows, rule.target);
          var i :| 0 <= i < |rest| && rest[i] == rule;
          assert rules[i + 1] == rule;
          forall r | r in more ensures more[r].target != rule.target {
            if r != nextId { assert r in rows && rows[r].target != rule.target; }
          }
        }
        CreatedFresh(more, nextId + 1, rest, handled);
      }
    }
  }

  lemma HandledExactly(dir: Directory, reach: Reach, d: Delegate, rows: map<RowId, Row>, r: RowId)
    requires UniqueTargets(rows) && r in rows && Shown(dir, reach, d, rows[r])
    ensures FullyReachable(dir, reach, d, rows[r]) <==> rows[r].target !in Handled(dir, reach, Some(d), rows)
    ensures FullyReachable(dir, reach, d, rows[r]) ==>
              forall rules :: !TargetUsed(Survivors(dir, reach, Some(d), rows, rules), rows[r].target)
  {
    if FullyReachable(dir, reach, d, rows[r]) {
      forall rules ensures !TargetUsed(Survivors(dir, reach, Some(d), rows, rules), rows[r].target) {
        var after := Survivors(dir, reach, Some(d), rows, rules);
        forall q | q in after ensures after[q].target != rows[r].target {
          assert q in rows && after[q].target == rows[q].target;
        }
      }
    }
  }

  /** Submitting back unchanged exactly what was shown is accepted whenever the tenant's data is
      its own, leaves every preserved row's identity and links as they were, and leaves the event
      with exactly the same rules. */
  lemma RoundTripPreserves(dir: Directory, reach: Reach, actor: UserId, rows: map<RowId, Row>, nextId: RowId, shown: seq<RowId>)
    requires UniqueTargets(rows) && forall r | r in rows :: r < nextId
    requires ShownRows(dir, reach, DelegateOf(dir, actor), rows, shown)
    requires forall r | r in shown :: Acceptable(dir, reach, DelegateOf(dir, actor), rows[r])
    ensures var d := DelegateOf(dir, actor);
            var prepared := Prepare(dir, reach, Some(d), Sent(dir, reach, d, rows, shown), {});
            && prepared.Success?
            && var after := Replaced(dir, reach, Some(d), rows, nextId, prepared.value);
               && after.Success?
               && (forall r | r in rows && Kept(dir, reach, Some(d), rows[r]) :: r in after.value && after.value[r] == rows[r])
               && after.value.Values == rows.Values
  {
    var d := DelegateOf(dir, actor);
    PreparedExactly(dir, reach, actor, rows, shown, {});
    var rules := Prepare(dir, reach, Some(d), Sent(dir, reach, d, rows, shown), {}).value;
    assert Projections(dir, reach, d, rows, shown, rules);
    PreparedIsSubmittable(dir, reach, d, Sent(dir, reach, d, rows, shown), {});
    PreservedBySending(dir, reach, d, rows, nextId, shown, rules);
  }

  lemma PreservedBySending(dir: Directory, reach: Reach, d: Delegate, rows: map<RowId, Row>, nextId: RowId,
                           shown: seq<RowId>, rules: seq<Row>)
    requires UniqueTargets(rows) && forall r | r in rows :: r < nextId
    requires ShownRows(dir, reach, d, rows, shown) && Projections(dir, reach, d, rows, shown, rules)
    requires forall a, b | 0 <= a < b < |rules| :: rules[a].target != rules[b].target
    ensures var after := Replaced(dir, reach, Some(d), rows, nextId, rules);
            && after.Success?
            && (forall r | r in rows && Kept(dir, reach, Some(d), rows[r]) :: r in after.value && after.value[r] == rows[r])
            && after.value.Values == rows.Values
  {
    var survivors := Survivors(dir, reach, Some(d), rows, rules);
    var handled := Handled(dir, reach, Some(d), rows);
    forall r | r in rows && Kept(dir, reach, Some(d), rows[r])
      ensures r in survivors && survivors[r] == rows[r] && !Blocked(dir, reach, Some(d), rows[r], rules)
    {
      KeptRowUnchanged(dir, reach, d, rows, shown, rules, r);
    }
    forall rule | rule in rules
      ensures rule.target !in handled ==> rule in rows.Values && !TargetUsed(survivors, rule.target)
    {
      var i :| 0 <= i < |rules| && rules[i] == rule;
      assert shown[i] in shown;
      HandledExactly(dir, reach, d, rows, shown[i]);
      assert rows[shown[i]] in rows.Values;
    }
    CreatedFresh(survivors, nextId, rules, handled);
    var after := Replaced(dir, reach, Some(d), rows, nextId, rules).value;
    forall row | row in rows.Values ensures row in after.Values {
      var r :| r in rows && rows[r] == row;
      if Kept(dir, reach, Some(d), row) {
        assert survivors[r] == row;
      } else {
        assert r in shown;
        var i :| 0 <= i < |shown| && shown[i] == r;
        HandledExactly(dir, reach, d, rows, r);
        assert rules[i] == row;
      }
    }
    forall row | row in after.Values ensures row in rows.Values {
      if row in survivors.Values {
        var r :| r in survivors && survivors[r] == row;
        assert rows[r] == row;
      }
    }
  }
}
