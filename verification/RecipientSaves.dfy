/** What a save of recipient rules amounts to: which submissions are accepted, and who is notified
    about every subject afterwards, for an actor of unlimited reach and for a delegate. */
module RecipientSaves {
  import opened Common
  import opened RecipientRules

  // ---- Accepted submissions ----------------------------------------------------------------

  /** The rule names this target, and its sender may name it. */
  ghost predicate Names(dir: Directory, delegate: Option<Delegate>, rule: Rule, target: Target) {
    match target
    case ToRole(role) =>
      && rule.kind == RoleKind && rule.role == Some(role) && rule.user == None
      && role in dir.roles && dir.roles[role] == dir.space
      && (delegate.Some? ==> delegate.value.role == Some(role))
    case ToUser(user) =>
      && rule.kind == UserKind && rule.user == Some(user) && rule.role == None
      && (exists m :: m in dir.memberships && dir.memberships[m].user == user
                      && dir.memberships[m].space == dir.space && dir.memberships[m].active)
      && (delegate.Some? ==> user in delegate.value.holders)
    case ToRequester => rule.kind == RequesterKind && rule.role == None && rule.user == None
    case ToMembers => rule.kind == MembersKind && rule.role == None && rule.user == None
  }

  /** Every link is the tenant's own or a global type; a delegate gives some, all in reach. */
  ghost predicate MayLink(dir: Directory, reach: Reach, delegated: bool, links: Links) {
    && (forall t | t in links.types :: t in dir.types && (dir.types[t] == None || dir.types[t] == Some(dir.space)))
    && (forall m | m in links.machines :: m in dir.machines && dir.machines[m].space == dir.space)
    && (forall c | c in links.categories :: c in dir.categories && dir.categories[c] == dir.space)
    && (delegated ==>
          && (links.types != {} || links.machines != {}) && links.categories == {}
          && (forall t | t in links.types :: t in reach.types)
          && (forall m | m in links.machines :: m in reach.machines || dir.machines[m].kind in reach.types))
  }

  /** Row by row, the submission read as targets and links, no target twice. */
  ghost predicate Reads(dir: Directory, reach: Reach, delegate: Option<Delegate>, rules: seq<Rule>, rows: seq<Row>) {
    && |rows| == |rules|
    && (forall i | 0 <= i < |rules| ::
          && Names(dir, delegate, rules[i], rows[i].target)
          && rows[i].links == (if rules[i].scope.Some? then rules[i].scope.value else NoLinks)
          && MayLink(dir, reach, delegate.Some?, rows[i].links))
    && (forall i, j | 0 <= i < j < |rules| :: rows[i].target != rows[j].target)
  }

  lemma IdentifiedExactly(dir: Directory, delegate: Option<Delegate>, rule: Rule, target: Target)
    ensures Identify(dir, delegate, rule) == Success(target) <==> Names(dir, delegate, rule, target)
  {}

  lemma ResolvedExactly(dir: Directory, reach: Reach, delegated: bool, links: Links)
    ensures ResolveTargets(dir, reach, delegated, links).Success? <==> MayLink(dir, reach, delegated, links)
    ensures MayLink(dir, reach, delegated, links) ==> ResolveTargets(dir, reach, delegated, links) == Success(links)
  {}

  lemma {:induction false} PreparedReads(dir: Directory, reach: Reach, delegate: Option<Delegate>, rules: seq<Rule>, seen: set<Target>)
    requires Prepare(dir, reach, delegate, rules, seen).Success?
    ensures var rows := Prepare(dir, reach, delegate, rules, seen).value;
            Reads(dir, reach, delegate, rules, rows) && forall i | 0 <= i < |rows| :: rows[i].target !in seen
    decreases |rules|
  {
    if rules != [] {
      var target := Identify(dir, delegate, rules[0]).value;
      IdentifiedExactly(dir, delegate, rules[0], target);
      ResolvedExactly(dir, reach, delegate.Some?, ScopeOf(rules[0]));
      PreparedReads(dir, reach, delegate, rules[1..], seen + {target});
    }
  }

  lemma {:induction false} ReadablePrepared(dir: Directory, reach: Reach, delegate: Option<Delegate>, rules: seq<Rule>,
                                            seen: set<Target>, rows: seq<Row>)
    requires Reads(dir, reach, delegate, rules, rows) && forall i | 0 <= i < |rows| :: rows[i].target !in seen
    ensures Prepare(dir, reach, delegate, rules, seen) == Success(rows)
    decreases |rules|
  {
    if rules != [] {
      IdentifiedExactly(dir, delegate, rules[0], rows[0].target);
      ResolvedExactly(dir, reach, delegate.Some?, rows[0].links);
      var (rest, more) := (rules[1..], rows[1..]);
      assert forall i | 0 <= i < |more| :: more[i] == rows[i + 1] && rest[i] == rules[i + 1];
      ReadablePrepared(dir, reach, delegate, rest, seen + {rows[0].target}, more);
      assert rows == [rows[0]] + more;
    } else {
      assert rows == [];
    }
  }

  /** A submission is accepted exactly if every rule names a target its sender may name, no target
      is named twice, and every link may be given; it then is read as just those rows. */
  lemma SubmissionAcceptedExactly(dir: Directory, reach: Reach, delegate: Option<Delegate>, rules: seq<Rule>)
    ensures forall rows :: Prepare(dir, reach, delegate, rules, {}) == Success(rows) <==> Reads(dir, reach, delegate, rules, rows)
  {
    forall rows ensures Prepare(dir, reach, delegate, rules, {}) == Success(rows) <==> Reads(dir, reach, delegate, rules, rows) {
      if Prepare(dir, reach, delegate, rules, {}) == Success(rows) { PreparedReads(dir, reach, delegate, rules, {}); }
      if Reads(dir, reach, delegate, rules, rows) { ReadablePrepared(dir, reach, delegate, rules, {}, rows); }
    }
  }

  /** The actor, or another, is an active member of the space in this role. */
  ghost predicate Serves(dir: Directory, user: UserId, role: RoleId) {
    exists m :: m in dir.memberships && dir.memberships[m].user == user && dir.memberships[m].space == dir.space
                && dir.memberships[m].active && dir.memberships[m].role == Some(role)
  }

  /** Nobody has two memberships in one space. */
  ghost predicate OneEach(dir: Directory) {
    forall m, n | m in dir.memberships && n in dir.memberships && dir.memberships[m].user == dir.memberships[n].user
                  && dir.memberships[m].space == dir.memberships[n].space :: m == n
  }

  /** A delegate may name their own role and its holders: active members of the space in that role,
      with live accounts, superusers excepted. */
  lemma DelegateNamesOwnRole(dir: Directory, actor: UserId, role: RoleId, user: UserId)
    requires OneEach(dir)
    ensures DelegateOf(dir, actor).role == Some(role) <==> Serves(dir, actor, role)
    ensures user in DelegateOf(dir, actor).holders <==>
              exists own: RoleId, m :: Serves(dir, actor, own) && m in dir.memberships && dir.memberships[m].user == user
                && dir.memberships[m].space == dir.space && dir.memberships[m].active && dir.memberships[m].role == Some(own)
                && dir.memberships[m].live && !dir.memberships[m].superuser
  {
    var found := set m | m in dir.memberships && dir.memberships[m].user == actor
                         && dir.memberships[m].space == dir.space && dir.memberships[m].active;
    assert forall m, n | m in found && n in found :: m == n;
    forall own: RoleId ensures DelegateOf(dir, actor).role == Some(own) <==> Serves(dir, actor, own) {
      if Serves(dir, actor, own) {
        var m :| m in dir.memberships && dir.memberships[m].user == actor && dir.memberships[m].space == dir.space
                 && dir.memberships[m].active && dir.memberships[m].role == Some(own);
        assert m in found && First(found).Some? && First(found).value == m;
      }
      if DelegateOf(dir, actor).role == Some(own) {
        var m := First(found).value;
        assert m in found && dir.memberships[m].role == Some(own);
      }
    }
  }

  /** A row with links covers a subject exactly through one of its links. */
  lemma CoveredThroughALink(links: Links, subject: Option<Subject>)
    requires !links.Empty()
    ensures Covers(links, subject) <==>
              || (exists m :: m in links.machines && subject.Some? && subject.value.machine == Some(m))
              || (exists t :: t in links.types && subject.Some? && subject.value.kind == Some(t))
              || (exists c :: c in links.categories && subject.Some? && subject.value.category == Some(c))
  {}

  // ---- An actor of unlimited reach -----------------------------------------------------------

  predicate Holds(rows: map<RowId, Row>, r: RowId, row: Row) {
    r in rows && rows[r] == row
  }

  /** The rules are rows under consecutive identifiers. */
  ghost predicate InOrder(rows: map<RowId, Row>, first: RowId, rules: seq<Row>) {
    forall i {:trigger rules[i]} | 0 <= i < |rules| :: Holds(rows, first + i, rules[i])
  }

  lemma InOrderCons(rows: map<RowId, Row>, first: RowId, rules: seq<Row>)
    requires rules != [] && Holds(rows, first, rules[0]) && InOrder(rows, first + 1, rules[1..])
    ensures InOrder(rows, first, rules)
  {
    forall i {:trigger rules[i]} | 0 <= i < |rules| ensures Holds(rows, first + i, rules[i]) {
      if i > 0 { assert rules[1..][i - 1] == rules[i]; }
    }
  }

  lemma {:induction false} CreatedInOrder(rows: map<RowId, Row>, nextId: RowId, rules: seq<Row>)
    requires forall r | r in rows :: r < nextId
    requires forall i | 0 <= i < |rules| :: !TargetUsed(rows, rules[i].target)
    requires forall i, j | 0 <= i < j < |rules| :: rules[i].target != rules[j].target
    ensures var created := Created(rows, nextId, rules, {});
            && created.Success? && |created.value| == |rows| + |rules|
            && (forall r | r in rows :: Holds(created.value, r, rows[r]))
            && InOrder(created.value, nextId, rules)
    decreases |rules|
  {
    if rules != [] {
      var (more, rest) := (rows[nextId := rules[0]], rules[1..]);
      assert !TargetUsed(rows, rules[0].target);
      forall i | 0 <= i < |rest| ensures !TargetUsed(more, rest[i].target) {
        assert rest[i] == rules[i + 1] && !TargetUsed(rows, rules[i + 1].target);
      }
      CreatedInOrder(more, nextId + 1, rest);
      assert more[nextId] == rules[0] && |more| == |rows| + 1;
      var created := Created(more, nextId + 1, rest, {}).value;
      assert Created(rows, nextId, rules, {}) == Success(created);
      forall r | r in rows ensures Holds(created, r, rows[r]) { assert r in more && Holds(created, r, more[r]); }
      assert nextId in more && Holds(created, nextId, more[nextId]);
      InOrderCons(created, nextId, rules);
    }
  }

  /** Whatever was there, an accepted save of an unlimited actor succeeds and leaves exactly the
      submitted rows, one each, under new identifiers. */
  lemma UnlimitedSaveIsExact(dir: Directory, reach: Reach, rows: map<RowId, Row>, nextId: RowId, rules: seq<Rule>, sent: seq<Row>)
    requires forall r | r in rows :: r < nextId
    requires Reads(dir, reach, None, rules, sent)
    ensures Prepare(dir, reach, None, rules, {}) == Success(sent)
    ensures var saved := Replaced(dir, reach, None, rows, nextId, sent);
            saved.Success? && |saved.value| == |sent| && InOrder(saved.value, nextId, sent)
  {
    ReadablePrepared(dir, reach, None, rules, {}, sent);
    NothingKept(dir, reach, rows, sent);
    CreatedInOrder(map[], nextId, sent);
  }

  lemma NothingKept(dir: Directory, reach: Reach, rows: map<RowId, Row>, sent: seq<Row>)
    ensures Survivors(dir, reach, None, rows, sent) == map[] && Handled(dir, reach, None, rows) == {}
    ensures !SomeBlocked(dir, reach, None, rows, sent)
  {}

  // ---- A delegate ----------------------------------------------------------------------------

  /** What of a row no save of this delegate can touch covers the subject: all of a space-wide row,
      all of a row for a role or person that is not wholly the delegate's, and of a shared row the
      links outside the reach. */
  predicate Stands(dir: Directory, reach: Reach, d: Delegate, row: Row, subject: Option<Subject>) {
    if row.links.Empty() then true
    else if FullyReachable(dir, reach, d, row) then false
    else if row.target.ToRole? || row.target.ToUser? then Covers(row.links, subject)
    else !Unowned(dir, reach, row.links).Empty() && Covers(Unowned(dir, reach, row.links), subject)
  }

  ghost predicate Untouched(dir: Directory, reach: Reach, d: Delegate, rows: map<RowId, Row>, target: Target, subject: Option<Subject>) {
    exists r :: r in rows && rows[r].target == target && Stands(dir, reach, d, rows[r], subject)
  }

  ghost predicate Asked(sent: seq<Row>, target: Target, subject: Option<Subject>) {
    exists i :: 0 <= i < |sent| && sent[i].target == target && Covers(sent[i].links, subject)
  }

  /** A delegate may submit a rule for the target of an existing row only if the row is wholly theirs,
      or is a shared one with links, to which their share is added. */
  ghost predicate Free(dir: Directory, reach: Reach, d: Delegate, rows: map<RowId, Row>, sent: seq<Row>) {
    forall i, r | 0 <= i < |sent| && r in rows && rows[r].target == sent[i].target ::
      FullyReachable(dir, reach, d, rows[r]) || (rows[r].target.Shared() && !rows[r].links.Empty())
  }

  lemma {:induction false} CreatedExactly(rows: map<RowId, Row>, nextId: RowId, rules: seq<Row>, handled: set<Target>)
    requires forall r | r in rows :: r < nextId
    requires forall i, j | 0 <= i < j < |rules| :: rules[i].target != rules[j].target
    ensures Created(rows, nextId, rules, handled).Success? <==>
              forall i | 0 <= i < |rules| && rules[i].target !in handled :: !TargetUsed(rows, rules[i].target)
    decreases |rules|
  {
    if rules != [] {
      var rest := rules[1..];
      assert forall i | 0 <= i < |rest| :: rest[i] == rules[i + 1];
      if rules[0].target in handled {
        CreatedExactly(rows, nextId, rest, handled);
      } else if !TargetUsed(rows, rules[0].target) {
        var more := rows[nextId := rules[0]];
        CreatedExactly(more, nextId + 1, rest, handled);
        forall i | 0 <= i < |rest| ensures TargetUsed(more, rest[i].target) <==> TargetUsed(rows, rest[i].target) {
          OneMoreUsed(rows, nextId, rules[0], rest[i].target);
        }
      }
    }
  }

  lemma OneMoreUsed(rows: map<RowId, Row>, id: RowId, row: Row, target: Target)
    requires id !in rows && row.target != target
    ensures TargetUsed(rows[id := row], target) <==> TargetUsed(rows, target)
  {
    if TargetUsed(rows, target) {
      var r :| r in rows && rows[r].target == target;
      assert r in rows[id := row] && rows[id := row][r] == rows[r];
    }
  }

  /** The rules of a save are distinct and, a delegate's, neither empty nor outside the reach. */
  lemma ReadIsSubmittable(dir: Directory, reach: Reach, d: Delegate, rules: seq<Rule>, sent: seq<Row>)
    requires Reads(dir, reach, Some(d), rules, sent)
    ensures Submittable(dir, reach, sent)
  {
    ReadablePrepared(dir, reach, Some(d), rules, {}, sent);
    PreparedIsSubmittable(dir, reach, d, rules, {});
  }

  lemma MergedCovers(dir: Directory, reach: Reach, links: Links, submitted: Option<Links>, subject: Option<Subject>)
    requires submitted.Some? ==> InReach(dir, reach, submitted.value) && !submitted.value.Empty()
    ensures var (merged, kept) := (Merged(dir, reach, links, submitted), Unowned(dir, reach, links));
            (merged.Some? && Covers(merged.value, subject)) <==>
              (!kept.Empty() && Covers(kept, subject)) || (submitted.Some? && Covers(submitted.value, subject))
  {}

  /** What a row that was there covers after the save. */
  lemma FateCovers(dir: Directory, reach: Reach, d: Delegate, row: Row, sent: seq<Row>, subject: Option<Subject>)
    requires Submittable(dir, reach, sent) && !Blocked(dir, reach, Some(d), row, sent)
    ensures var (fate, submitted) := (Fate(dir, reach, Some(d), row, sent), SubmittedFor(sent, row.target));
            (fate.Some? && Covers(fate.value.links, subject)) <==>
              || Stands(dir, reach, d, row, subject)
              || (Kept(dir, reach, Some(d), row) && row.target.Shared() && submitted.Some? && Covers(submitted.value, subject))
  {
    if Kept(dir, reach, Some(d), row) && row.target.Shared() && !row.links.Empty() {
      SubmittedIsSent(dir, reach, sent, row.target);
      MergedCovers(dir, reach, row.links, SubmittedFor(sent, row.target), subject);
    }
  }

  lemma SubmittedAt(sent: seq<Row>, i: nat)
    requires i < |sent| && forall a, b | 0 <= a < b < |sent| :: sent[a].target != sent[b].target
    ensures SubmittedFor(sent, sent[i].target) == Some(sent[i].links)
  {
    SubmittedIs(sent, i);
  }

  /** A delegate's accepted save goes through exactly if every target submitted is free for it. */
  lemma DelegateSaveGoesThroughExactly(dir: Directory, reach: Reach, d: Delegate, rows: map<RowId, Row>, nextId: RowId,
                                       rules: seq<Rule>, sent: seq<Row>)
    requires UniqueTargets(rows) && (forall r | r in rows :: r < nextId) && Reads(dir, reach, Some(d), rules, sent)
    ensures Replaced(dir, reach, Some(d), rows, nextId, sent).Success? <==> Free(dir, reach, d, rows, sent)
  {
    ReadIsSubmittable(dir, reach, d, rules, sent);
    var (after, handled) := (Survivors(dir, reach, Some(d), rows, sent), Handled(dir, reach, Some(d), rows));
    CreatedExactly(after, nextId, sent, handled);
    if Free(dir, reach, d, rows, sent) { FreeGoesThrough(dir, reach, d, rows, sent); }
    if !SomeBlocked(dir, reach, Some(d), rows, sent)
       && forall i | 0 <= i < |sent| && sent[i].target !in handled :: !TargetUsed(after, sent[i].target) {
      forall i, r | 0 <= i < |sent| && r in rows && rows[r].target == sent[i].target
        ensures FullyReachable(dir, reach, d, rows[r]) || (rows[r].target.Shared() && !rows[r].links.Empty())
      {
        SubmittedAt(sent, i);
        OneRowForTarget(dir, reach, d, rows, sent, r);
      }
    }
  }

  lemma FreeGoesThrough(dir: Directory, reach: Reach, d: Delegate, rows: map<RowId, Row>, sent: seq<Row>)
    requires UniqueTargets(rows) && Submittable(dir, reach, sent) && Free(dir, reach, d, rows, sent)
    ensures !SomeBlocked(dir, reach, Some(d), rows, sent)
    ensures forall i | 0 <= i < |sent| && sent[i].target !in Handled(dir, reach, Some(d), rows) ::
              !TargetUsed(Survivors(dir, reach, Some(d), rows, sent), sent[i].target)
  {
    forall r | r in rows ensures !Blocked(dir, reach, Some(d), rows[r], sent) {
      SubmittedIsSent(dir, reach, sent, rows[r].target);
    }
    var after := Survivors(dir, reach, Some(d), rows, sent);
    forall i | 0 <= i < |sent| && sent[i].target !in Handled(dir, reach, Some(d), rows) ensures !TargetUsed(after, sent[i].target) {
      forall r | r in after ensures after[r].target != sent[i].target {
        FateKeepsTarget(dir, reach, d, rows[r], sent);
        OneRowForTarget(dir, reach, d, rows, sent, r);
      }
    }
  }

  lemma OneRowForTarget(dir: Directory, reach: Reach, d: Delegate, rows: map<RowId, Row>, sent: seq<Row>, r: RowId)
    requires UniqueTargets(rows) && r in rows
    ensures rows[r].target in Handled(dir, reach, Some(d), rows) <==> Kept(dir, reach, Some(d), rows[r]) && rows[r].target.Shared()
    ensures TargetUsed(Survivors(dir, reach, Some(d), rows, sent), rows[r].target) <==> Fate(dir, reach, Some(d), rows[r], sent).Some?
  {
    var after := Survivors(dir, reach, Some(d), rows, sent);
    if Fate(dir, reach, Some(d), rows[r], sent).Some? { assert r in after && after[r].target == rows[r].target; }
    forall q | q in after && after[q].target == rows[r].target ensures q == r {
      assert q in rows && rows[q].target == after[q].target;
    }
  }

  /** And then, about every subject whatever, exactly those are notified whom the delegate asked for
      and those whom the part of the rows that is not theirs notifies. */
  lemma DelegateSaveIsExact(dir: Directory, reach: Reach, d: Delegate, rows: map<RowId, Row>, nextId: RowId,
                            rules: seq<Rule>, sent: seq<Row>, target: Target, subject: Option<Subject>)
    requires UniqueTargets(rows) && (forall r | r in rows :: r < nextId) && Reads(dir, reach, Some(d), rules, sent)
    requires Replaced(dir, reach, Some(d), rows, nextId, sent).Success?
    ensures Notifies(Replaced(dir, reach, Some(d), rows, nextId, sent).value, target, subject) <==>
              Asked(sent, target, subject) || Untouched(dir, reach, d, rows, target, subject)
  {
    ReadIsSubmittable(dir, reach, d, rules, sent);
    var (after, handled) := (Survivors(dir, reach, Some(d), rows, sent), Handled(dir, reach, Some(d), rows));
    CreatedExactly(after, nextId, sent, handled);
    CreatedFresh(after, nextId, sent, handled);
    var end := Replaced(dir, reach, Some(d), rows, nextId, sent).value;
    NotifiesByValue(end, target, subject);
    NotifiesByValue(after, target, subject);
    SurvivorsNotify(dir, reach, d, rows, sent, target, subject);
    NewNotify(dir, reach, d, rows, sent, target, subject);
    assert Notifies(end, target, subject) <==>
      Notifies(after, target, subject) || exists row | row in sent :: row.target !in handled && row.target == target && Covers(row.links, subject);
  }

  lemma NotifiesByValue(rows: map<RowId, Row>, target: Target, subject: Option<Subject>)
    ensures Notifies(rows, target, subject) <==> exists row :: row in rows.Values && row.target == target && Covers(row.links, subject)
  {
    if Notifies(rows, target, subject) {
      var r :| r in rows && rows[r].target == target && Covers(rows[r].links, subject);
      assert rows[r] in rows.Values;
    }
  }

  lemma SurvivorsNotify(dir: Directory, reach: Reach, d: Delegate, rows: map<RowId, Row>, sent: seq<Row>, target: Target, subject: Option<Subject>)
    requires Submittable(dir, reach, sent) && !SomeBlocked(dir, reach, Some(d), rows, sent)
    ensures Notifies(Survivors(dir, reach, Some(d), rows, sent), target, subject) <==>
              || Untouched(dir, reach, d, rows, target, subject)
              || (target in Handled(dir, reach, Some(d), rows) && Asked(sent, target, subject))
  {
    var after := Survivors(dir, reach, Some(d), rows, sent);
    SubmittedAsked(dir, reach, sent, target, subject);
    if Notifies(after, target, subject) {
      var r :| r in after && after[r].target == target && Covers(after[r].links, subject);
      assert r in rows && rows[r].target == target;
      FateCovers(dir, reach, d, rows[r], sent, subject);
    }
    if Untouched(dir, reach, d, rows, target, subject) {
      var r :| r in rows && rows[r].target == target && Stands(dir, reach, d, rows[r], subject);
      SurvivorNotifies(dir, reach, d, rows, sent, r, subject);
    }
    if target in Handled(dir, reach, Some(d), rows) && Asked(sent, target, subject) {
      var r :| r in rows && Kept(dir, reach, Some(d), rows[r]) && rows[r].target.Shared() && rows[r].target == target;
      SurvivorNotifies(dir, reach, d, rows, sent, r, subject);
    }
  }

  lemma SurvivorNotifies(dir: Directory, reach: Reach, d: Delegate, rows: map<RowId, Row>, sent: seq<Row>, r: RowId, subject: Option<Subject>)
    requires Submittable(dir, reach, sent) && r in rows && !Blocked(dir, reach, Some(d), rows[r], sent)
    requires || Stands(dir, reach, d, rows[r], subject)
             || (Kept(dir, reach, Some(d), rows[r]) && rows[r].target.Shared() && SubmittedFor(sent, rows[r].target).Some?
                 && Covers(SubmittedFor(sent, rows[r].target).value, subject))
    ensures Notifies(Survivors(dir, reach, Some(d), rows, sent), rows[r].target, subject)
  {
    FateCovers(dir, reach, d, rows[r], sent, subject);
    FateKeepsTarget(dir, reach, d, rows[r], sent);
    var after := Survivors(dir, reach, Some(d), rows, sent);
    assert r in after && after[r].target == rows[r].target && Covers(after[r].links, subject);
  }

  lemma FateKeepsTarget(dir: Directory, reach: Reach, d: Delegate, row: Row, sent: seq<Row>)
    ensures Fate(dir, reach, Some(d), row, sent).Some? ==> Fate(dir, reach, Some(d), row, sent).value.target == row.target
  {}

  lemma SubmittedAsked(dir: Directory, reach: Reach, sent: seq<Row>, target: Target, subject: Option<Subject>)
    requires Submittable(dir, reach, sent)
    ensures Asked(sent, target, subject) <==> SubmittedFor(sent, target).Some? && Covers(SubmittedFor(sent, target).value, subject)
  {
    if Asked(sent, target, subject) {
      var i :| 0 <= i < |sent| && sent[i].target == target && Covers(sent[i].links, subject);
      SubmittedAt(sent, i);
    }
    if SubmittedFor(sent, target).Some? {
      SubmittedIsSent(dir, reach, sent, target);
      var i :| 0 <= i < |sent| && sent[i] == Row(target, SubmittedFor(sent, target).value);
    }
  }

  lemma NewNotify(dir: Directory, reach: Reach, d: Delegate, rows: map<RowId, Row>, sent: seq<Row>, target: Target, subject: Option<Subject>)
    ensures (exists row | row in sent :: row.target !in Handled(dir, reach, Some(d), rows) && row.target == target && Covers(row.links, subject))
       <==> target !in Handled(dir, reach, Some(d), rows) && Asked(sent, target, subject)
  {
    if target !in Handled(dir, reach, Some(d), rows) && Asked(sent, target, subject) {
      var i :| 0 <= i < |sent| && sent[i].target == target && Covers(sent[i].links, subject);
      assert sent[i] in sent;
    }
  }
}
