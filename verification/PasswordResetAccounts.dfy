/** What the recovery envelope does to accounts, over every run of PasswordResetRuns: whose password
    changes, to what, and when a code is committed, leased and swept. */
module PasswordResetAccounts {
  import opened Common
  import opened PasswordReset
  import opened PasswordResetRuns

  /** A confirmation that succeeds, in terms of the row's history. */
  ghost predicate Redeeming(w: World, step: Step) {
    && step.Confirm? && RowFor(w, step.raw).Some? && RowFor(w, step.raw).value in w.log
    && Redeems(w, RowFor(w, step.raw).value, NormalizeEmail(step.raw).value, step.code, step.newHash, step.at)
  }

  /** The account its code was committed for. */
  ghost function Holder(w: World, step: Step): UserId
    requires Redeeming(w, step)
  {
    w.log[RowFor(w, step.raw).value].user
  }

  /** What a successful confirmation makes of the accounts. */
  ghost predicate PasswordSet(before: map<UserId, User>, after: map<UserId, User>, u: UserId, hash: string) {
    && u in before && after.Keys == before.Keys
    && after[u] == before[u].(passwordHash := hash, mustChangePassword := false)
    && forall other | other in before && other != u :: after[other] == before[other]
  }

  lemma ConfirmSetsPassword(w: World, step: Step)
    requires Inv(w) && Enabled(w, step) && step.Confirm?
    ensures if Redeeming(w, step) then PasswordSet(w.store.users, Next(w, step).store.users, Holder(w, step), step.newHash.value)
            else Next(w, step).store.users == w.store.users
  {
    RedeemsExactly(w, step);
    var found := RowFor(w, step.raw);
    if found.Some? {
      var e := w.store.rows[found.value];
      assert CellInv(w.log[found.value], w.Row(found.value), w.clock);
      if Redeeming(w, step) { assert e.user == Some(Holder(w, step)); }
    }
  }

  /** A step touches accounts only by redeeming or by an edit, and redeeming stores the submitted
      hash, lifts the obligation to change it, and leaves every other field and account alone. */
  lemma StepChangesAccounts(w: World, step: Step)
    requires Inv(w) && Enabled(w, step)
    ensures Redeeming(w, step) ==> PasswordSet(w.store.users, Next(w, step).store.users, Holder(w, step), step.newHash.value)
    ensures !step.EditUsers? && !Redeeming(w, step) ==> Next(w, step).store.users == w.store.users
  {
    if step.Confirm? { ConfirmSetsPassword(w, step); } else if !step.EditUsers? { OthersLeaveAccounts(w, step); }
  }

  lemma OthersLeaveAccounts(w: World, step: Step)
    requires Enabled(w, step) && !step.Confirm? && !step.EditUsers?
    ensures Next(w, step).store.users == w.store.users && !Redeeming(w, step)
  {
    match step
    case Request(raw, at, nonce) => assert Requested(w.store, raw, at, w.nextPk, nonce).users == w.store.users;
    case Prepare(t, at, mailOn, code, nonce) =>
      assert PreparedStore(w.store, t.pk, t.generation, at, mailOn, code, nonce).users == w.store.users;
    case Finalize(_, _, _, _) =>
    case _ =>
  }

  lemma ConfirmationChangesAccounts(users: map<UserId, User>, clock: Time, steps: seq<Step>, step: Step)
    requires Run(Start(users, clock), steps) && Enabled(End(Start(users, clock), steps), step) && step.Confirm?
    ensures var w := End(Start(users, clock), steps);
            if Redeeming(w, step) then PasswordSet(w.store.users, Next(w, step).store.users, Holder(w, step), step.newHash.value)
            else Next(w, step).store.users == w.store.users
  {
    Reached(users, clock, steps);
    StepChangesAccounts(End(Start(users, clock), steps), step);
  }

  // ---- The hash an account ends with --------------------------------------------------------

  /** The world after the first k steps. */
  function After(w: World, steps: seq<Step>, k: nat): World
    requires Run(w, steps) && k <= |steps|
    decreases k
  {
    if k == 0 then w else After(Next(w, steps[0]), steps[1..], k - 1)
  }

  ghost predicate RedeemsAt(w: World, steps: seq<Step>, k: nat, u: UserId)
    requires Run(w, steps)
  {
    k < |steps| && Redeeming(After(w, steps, k), steps[k]) && Holder(After(w, steps, k), steps[k]) == u
  }

  /** Step k is the last that redeemed a code of this account. */
  ghost predicate LastRedemption(w: World, steps: seq<Step>, k: nat, u: UserId)
    requires Run(w, steps)
  {
    RedeemsAt(w, steps, k, u) && forall j: nat | k < j :: !RedeemsAt(w, steps, j, u)
  }

  lemma LaterRedemptions(w: World, steps: seq<Step>, u: UserId)
    requires Run(w, steps) && steps != []
    ensures forall k: nat :: RedeemsAt(Next(w, steps[0]), steps[1..], k, u) <==> RedeemsAt(w, steps, k + 1, u)
  {
    forall k: nat ensures RedeemsAt(Next(w, steps[0]), steps[1..], k, u) <==> RedeemsAt(w, steps, k + 1, u) {
      if k < |steps| - 1 { assert After(w, steps, k + 1) == After(Next(w, steps[0]), steps[1..], k); }
    }
  }

  lemma {:induction false} UntouchedWithoutRedemption(w: World, steps: seq<Step>, u: UserId)
    requires Inv(w) && Run(w, steps) && u in w.store.users
    requires forall i | 0 <= i < |steps| :: !steps[i].EditUsers?
    requires forall k: nat :: !RedeemsAt(w, steps, k, u)
    ensures u in End(w, steps).store.users && End(w, steps).store.users[u] == w.store.users[u]
    decreases |steps|
  {
    if steps != [] {
      StepKeeps(w, steps[0]);
      StepChangesAccounts(w, steps[0]);
      LaterRedemptions(w, steps, u);
      assert After(w, steps, 0) == w && !RedeemsAt(w, steps, 0, u);
      UntouchedWithoutRedemption(Next(w, steps[0]), steps[1..], u);
    }
  }

  lemma {:induction false} LastRedemptionSets(w: World, steps: seq<Step>, k: nat, u: UserId)
    requires Inv(w) && Run(w, steps) && u in w.store.users && LastRedemption(w, steps, k, u)
    requires forall i | 0 <= i < |steps| :: !steps[i].EditUsers?
    ensures u in End(w, steps).store.users && End(w, steps).store.users[u].passwordHash == steps[k].newHash.value
    decreases |steps|
  {
    var next, rest := Next(w, steps[0]), steps[1..];
    StepKeeps(w, steps[0]);
    StepChangesAccounts(w, steps[0]);
    LaterRedemptions(w, steps, u);
    if k > 0 {
      assert RedeemsAt(next, rest, k - 1, u);
      LastRedemptionSets(next, rest, k - 1, u);
    } else {
      assert After(w, steps, 0) == w;
      forall j: nat ensures !RedeemsAt(next, rest, j, u) { assert !RedeemsAt(w, steps, j + 1, u); }
      UntouchedWithoutRedemption(next, rest, u);
    }
  }

  /** Without edits, an account's hash is the one submitted by the last confirmation that redeemed a
      code of that account, and the initial one if there was none. */
  lemma HashIsLastSubmitted(users: map<UserId, User>, clock: Time, steps: seq<Step>, u: UserId)
    requires Run(Start(users, clock), steps) && u in users
    requires forall i | 0 <= i < |steps| :: !steps[i].EditUsers?
    ensures u in End(Start(users, clock), steps).store.users
    ensures forall k: nat | LastRedemption(Start(users, clock), steps, k, u) ::
              End(Start(users, clock), steps).store.users[u].passwordHash == steps[k].newHash.value
    ensures (forall k: nat :: !RedeemsAt(Start(users, clock), steps, k, u)) ==>
              End(Start(users, clock), steps).store.users[u] == users[u]
    ensures (exists k: nat :: RedeemsAt(Start(users, clock), steps, k, u)) ==>
              exists k: nat :: LastRedemption(Start(users, clock), steps, k, u)
  {
    var w := Start(users, clock);
    StaysPresent(w, steps, u);
    forall k: nat | LastRedemption(w, steps, k, u) ensures End(w, steps).store.users[u].passwordHash == steps[k].newHash.value {
      LastRedemptionSets(w, steps, k, u);
    }
    if forall k: nat :: !RedeemsAt(w, steps, k, u) { UntouchedWithoutRedemption(w, steps, u); }
    if k: nat :| RedeemsAt(w, steps, k, u) {
      var last := FindLast(w, steps, k, u);
    }
  }

  lemma {:induction false} StaysPresent(w: World, steps: seq<Step>, u: UserId)
    requires Inv(w) && Run(w, steps) && u in w.store.users
    requires forall i | 0 <= i < |steps| :: !steps[i].EditUsers?
    ensures u in End(w, steps).store.users
    decreases |steps|
  {
    if steps != [] {
      StepKeeps(w, steps[0]);
      StepChangesAccounts(w, steps[0]);
      StaysPresent(Next(w, steps[0]), steps[1..], u);
    }
  }

  lemma {:induction false} FindLast(w: World, steps: seq<Step>, k: nat, u: UserId) returns (last: nat)
    requires Run(w, steps) && RedeemsAt(w, steps, k, u)
    ensures LastRedemption(w, steps, last, u)
    decreases |steps| - k
  {
    if later: nat :| k < later && RedeemsAt(w, steps, later, u) {
      last := FindLast(w, steps, later, u);
    } else {
      last := k;
    }
  }

  /** A redemption that really changes the hash makes every code dead that was committed against the
      old one, its own included. */
  lemma RedemptionKillsOldCodes(users: map<UserId, User>, clock: Time, steps: seq<Step>, step: Step, pk: Pk,
                                email: string, code: string, newHash: Option<string>, at: Time)
    requires Run(Start(users, clock), steps) && Enabled(End(Start(users, clock), steps), step)
    requires Redeeming(End(Start(users, clock), steps), step)
    requires var w := End(Start(users, clock), steps);
             var u := Holder(w, step);
             && u in w.store.users && step.newHash.value != w.store.users[u].passwordHash
             && pk in w.store.rows && pk in w.log && w.log[pk].user == u && w.log[pk].passwordHash == w.store.users[u].passwordHash
    ensures var w' := Next(End(Start(users, clock), steps), step);
            pk in w'.store.rows && pk in w'.log && !Redeems(w', pk, email, code, newHash, at)
  {
    Reached(users, clock, steps);
    var w := End(Start(users, clock), steps);
    StepChangesAccounts(w, step);
    ConfirmEffect(w, step);
  }

  // ---- Requests, codes and leases ----------------------------------------------------------

  /** An account that may recover its password, field by field. */
  predicate MayRecover(user: User) {
    user.active && user.accessActive && !user.dumpStub && !user.walkIn && !user.anonymousRequester
  }

  predicate Settled(status: Status) {
    !status.Pending? && !status.Claimed? && !status.Delivering?
  }

  /** The row's next request was accepted and its address queued; nothing else changed. */
  ghost predicate Accepts(w: World, w': World, pk: Pk, accepted: seq<Time>) {
    && pk in w'.store.rows && pk in w'.log && w'.log[pk].accepted == accepted
    && w'.store.rows[pk].status == Pending && Elsewhere(w, w', pk)
  }

  /** When an address that has a row may be queued again. */
  predicate CooledDown(l: Ledger, e: Envelope, at: Time) {
    Settled(e.status) && l.accepted != [] && l.accepted[|l.accepted| - 1] + RESEND_COOLDOWN <= at
  }

  /** A request for a good address is accepted iff the address has no row, or its row is settled and
      the last accepted request is a cooldown old; otherwise nothing at all changes. */
  lemma RequestAcceptedExactly(users: map<UserId, User>, clock: Time, steps: seq<Step>, step: Step)
    requires Run(Start(users, clock), steps) && Enabled(End(Start(users, clock), steps), step) && step.Request?
    ensures var w := End(Start(users, clock), steps);
            match RowFor(w, step.raw)
            case None =>
              if NormalizeEmail(step.raw).None? then Next(w, step) == w
              else w.nextPk !in w.log && Accepts(w, Next(w, step), w.nextPk, [step.at])
                   && Next(w, step).store.rows[w.nextPk].email == NormalizeEmail(step.raw).value
            case Some(pk) =>
              && pk in w.log
              && if CooledDown(w.log[pk], w.store.rows[pk], step.at)
                 then Accepts(w, Next(w, step), pk, w.log[pk].accepted + [step.at])
                 else Next(w, step) == w
  {
    Reached(users, clock, steps);
    var w := End(Start(users, clock), steps);
    match RequestOutcomeFor(w.store, step.raw, step.at)
    case Opened => OpensARow(w, step);
    case BadAddress =>
    case Resent => ReentersARow(w, step);
    case _ => RefusesARow(w, step);
  }

  lemma OpensARow(w: World, step: Step)
    requires Inv(w) && Enabled(w, step) && step.Request? && RequestOutcomeFor(w.store, step.raw, step.at) == Opened
    ensures RowFor(w, step.raw).None? && NormalizeEmail(step.raw).Some? && w.nextPk !in w.log
    ensures Accepts(w, Next(w, step), w.nextPk, [step.at])
    ensures Next(w, step).store.rows[w.nextPk].email == NormalizeEmail(step.raw).value
  {}

  lemma ReentersARow(w: World, step: Step)
    requires Inv(w) && Enabled(w, step) && step.Request? && RequestOutcomeFor(w.store, step.raw, step.at) == Resent
    ensures RowFor(w, step.raw).Some?
    ensures var pk := RowFor(w, step.raw).value;
            && pk in w.log && CooledDown(w.log[pk], w.store.rows[pk], step.at)
            && Accepts(w, Next(w, step), pk, w.log[pk].accepted + [step.at])
  {
    var pk := RowFor(w, step.raw).value;
    assert CellInv(w.log[pk], w.Row(pk), w.clock);
    assert w.log[pk].accepted[|w.log[pk].accepted| - 1] == w.store.rows[pk].requestedAt;
    var e := Reentered(w.store.rows[pk], NormalizeEmail(step.raw).value, step.at, step.nonce);
    assert Next(w, step).store == w.store.(rows := w.store.rows[pk := e]);
    assert Next(w, step).log == w.log[pk := Reopening(w.log[pk], step.at)];
  }

  lemma RefusesARow(w: World, step: Step)
    requires Inv(w) && Enabled(w, step) && step.Request? && RequestOutcomeFor(w.store, step.raw, step.at) in {Unchanged, CoolingDown}
    ensures RowFor(w, step.raw).Some? && Next(w, step) == w
    ensures var pk := RowFor(w, step.raw).value; pk in w.log && !CooledDown(w.log[pk], w.store.rows[pk], step.at)
  {
    var pk := RowFor(w, step.raw).value;
    assert CellInv(w.log[pk], w.Row(pk), w.clock);
  }

  /** No account, and no row or ledger but this one, changed. */
  ghost predicate Elsewhere(w: World, w': World, pk: Pk) {
    && w'.store.users == w.store.users
    && forall other | other != pk :: w'.Row(other) == w.Row(other)
                      && (other in w'.log <==> other in w.log) && (other in w.log ==> w'.log[other] == w.log[other])
  }

  /** The account an address leads to: the least identifier among those that carry it. */
  predicate Carries(users: map<UserId, User>, email: string, u: UserId) {
    && u in users && Lower(users[u].email) == Lower(email)
    && forall v | v in users && Lower(users[v].email) == Lower(email) :: u <= v
  }

  /** The claim is current, mail is on, and the address leads to an account that may recover. */
  ghost predicate Committable(w: World, step: Step)
    requires step.Prepare?
  {
    && step.mailOn && step.ticket.pk in w.store.rows
    && var e := w.store.rows[step.ticket.pk];
       && e.generation == step.ticket.generation && e.status == Claimed
       && exists u :: Carries(w.store.users, e.email, u) && MayRecover(w.store.users[u])
  }

  /** The ledger names the account the row's address leads to, and its present credential. */
  predicate CommittedFor(w: World, step: Step, l: Ledger)
    requires step.Prepare? && step.ticket.pk in w.store.rows
  {
    && Carries(w.store.users, w.store.rows[step.ticket.pk].email, l.user) && MayRecover(w.store.users[l.user])
    && l.passwordHash == w.store.users[l.user].passwordHash
    && l.code == step.code && l.armedAt == step.at && l.confirms == 0
  }

  /** A worker commits a code iff its claim is current, mail is on, and the address leads to an
      account that may recover; the code then is for that account and its present credential. */
  lemma CodeCommittedExactly(users: map<UserId, User>, clock: Time, steps: seq<Step>, step: Step)
    requires Run(Start(users, clock), steps) && Enabled(End(Start(users, clock), steps), step) && step.Prepare?
    ensures var w := End(Start(users, clock), steps);
            && step.ticket.generation !in w.log[step.ticket.pk].prepared
            && (step.ticket.generation in Next(w, step).log[step.ticket.pk].prepared <==> Committable(w, step))
            && (Committable(w, step) ==> CommittedFor(w, step, Next(w, step).log[step.ticket.pk]))
  {
    Reached(users, clock, steps);
    CommittedExactly(End(Start(users, clock), steps), step);
  }

  lemma CommittedExactly(w: World, step: Step)
    requires Inv(w) && Enabled(w, step) && step.Prepare?
    ensures step.ticket.generation !in w.log[step.ticket.pk].prepared
    ensures step.ticket.generation in Next(w, step).log[step.ticket.pk].prepared <==> Committable(w, step)
    ensures Committable(w, step) ==> CommittedFor(w, step, Next(w, step).log[step.ticket.pk])
  {
    HeldMeansUnprepared(w, step.ticket);
    if step.ticket.pk in w.store.rows { LookupCarries(w.store.users, w.store.rows[step.ticket.pk].email); }
  }

  lemma HeldMeansUnprepared(w: World, t: Ticket)
    requires Inv(w) && w.At(t) && w.Worker(t).Held?
    ensures t.generation !in w.log[t.pk].prepared
  {
    assert CellInv(w.log[t.pk], w.Row(t.pk), w.clock);
    assert WorkerInv(w.log[t.pk], t.generation, w.log[t.pk].workers[t.generation]);
  }

  lemma LookupCarries(users: map<UserId, User>, email: string)
    ensures forall u: UserId :: FindUser(users, email) == Some(u) <==> Carries(users, email, u)
  {
    forall u: UserId ensures FindUser(users, email) == Some(u) <==> Carries(users, email, u) {
      assert forall v :: v in UsersNamed(users, email) <==> v in users && Lower(users[v].email) == Lower(email);
      if Carries(users, email, u) {
        assert u in UsersNamed(users, email);
        assert FindUser(users, email).value in UsersNamed(users, email);
      }
    }
  }

  predicate UniqueAddresses(rows: map<Pk, Envelope>) {
    forall p, q | p in rows && q in rows && Lower(rows[p].email) == Lower(rows[q].email) :: p == q
  }

  lemma {:induction false} AddressesStayUnique(w: World, steps: seq<Step>)
    requires Indexed(w) && Run(w, steps) && UniqueAddresses(w.store.rows)
    ensures UniqueAddresses(End(w, steps).store.rows)
    decreases |steps|
  {
    if steps != [] {
      StepIndexed(w, steps[0]);
      StepKeepsUnique(w, steps[0]);
      AddressesStayUnique(Next(w, steps[0]), steps[1..]);
    }
  }

  lemma StepIndexed(w: World, step: Step)
    requires Indexed(w) && Enabled(w, step)
    ensures Indexed(Next(w, step))
  {
    match step
    case Confirm(_, _, _, _, _) => if RowFor(w, step.raw).Some? { ConfirmEffect(w, step); }
    case ClaimRow(_, _, _) => RowEffect(w, step);
    case Expire(_, _, _) => RowEffect(w, step);
    case Discard(_, _, _) => RowEffect(w, step);
    case Prepare(_, _, _, _, _) => WorkerEffect(w, step);
    case Send(_, _) => WorkerEffect(w, step);
    case Finalize(_, _, _, _) => WorkerEffect(w, step);
    case _ =>
  }

  lemma LowerTwice(s: string)
    ensures Lower(Lower(s)) == Lower(s)
  {
    assert forall i | 0 <= i < |s| :: LowerChar(LowerChar(s[i])) == LowerChar(s[i]);
  }

  /** Rows keep their address up to case; a new one has an address no row had. */
  lemma StepKeepsUnique(w: World, step: Step)
    requires Indexed(w) && Enabled(w, step) && UniqueAddresses(w.store.rows)
    ensures UniqueAddresses(Next(w, step).store.rows)
  {
    var (rows, rows') := (w.store.rows, Next(w, step).store.rows);
    if step.Request? && RequestOutcomeFor(w.store, step.raw, step.at) == Opened {
      assert forall p | p in rows :: p !in RowsNamed(rows, NormalizeEmail(step.raw).value);
    } else {
      forall p | p in rows' ensures p in rows && Lower(rows'[p].email) == Lower(rows[p].email) {
        RowKeepsAddress(w, step, p);
      }
    }
  }

  lemma RowKeepsAddress(w: World, step: Step, p: Pk)
    requires Indexed(w) && Enabled(w, step) && p in Next(w, step).store.rows
    requires !(step.Request? && RequestOutcomeFor(w.store, step.raw, step.at) == Opened)
    ensures p in w.store.rows && Lower(Next(w, step).store.rows[p].email) == Lower(w.store.rows[p].email)
  {
    match step
    case Request(raw, at, nonce) =>
      if RequestOutcomeFor(w.store, raw, at) == Resent && RowFor(w, raw) == Some(p) {
        assert p in RowsNamed(w.store.rows, NormalizeEmail(raw).value);
      }
    case Confirm(_, _, _, _, _) => if RowFor(w, step.raw).Some? { ConfirmEffect(w, step); }
    case Prepare(_, _, _, _, _) => WorkerEffect(w, step);
    case Finalize(_, _, _, _) => WorkerEffect(w, step);
    case _ =>
  }

  /** However requests race, an address never has two rows. */
  lemma OneRowPerAddress(users: map<UserId, User>, clock: Time, steps: seq<Step>, p: Pk, q: Pk)
    requires Run(Start(users, clock), steps)
    requires var rows := End(Start(users, clock), steps).store.rows;
             p in rows && q in rows && Lower(rows[p].email) == Lower(rows[q].email)
    ensures p == q
  {
    AddressesStayUnique(Start(users, clock), steps);
  }

  // ---- Leases ------------------------------------------------------------------------------

  /** The row is in the hands of the worker that claimed this generation, until then. */
  predicate HeldUntil(w: World, t: Ticket, until: Time) {
    && t.pk in w.store.rows && t.pk in w.log
    && var e := w.store.rows[t.pk];
       e.generation == t.generation && (e.status.Claimed? || e.status.Delivering?) && e.claimExpiresAt == Some(until)
  }

  /** The worker itself moves, or the row is purged for its age. */
  predicate Ends(step: Step, t: Ticket) {
    step == Purge(t.pk) || ((step.Prepare? || step.Send? || step.Finalize?) && step.ticket == t)
  }

  lemma StepKeepsLease(w: World, step: Step, t: Ticket, until: Time)
    requires Inv(w) && Enabled(w, step) && HeldUntil(w, t, until) && w.clock < until && !Ends(step, t)
    ensures HeldUntil(Next(w, step), t, until)
    ensures Next(w, step).store.rows[t.pk].status == w.store.rows[t.pk].status
  {
    match step
    case Request(_, _, _) => RequestKeepsLease(w, step, t, until);
    case Confirm(_, _, _, _, _) => ConfirmKeepsLease(w, step, t, until);
    case ClaimRow(_, _, _) => SweepsKeepLease(w, step, t, until);
    case Expire(_, _, _) => SweepsKeepLease(w, step, t, until);
    case Discard(_, _, _) => SweepsKeepLease(w, step, t, until);
    case Prepare(_, _, _, _, _) => WorkersKeepLease(w, step, t, until);
    case Send(_, _) => WorkersKeepLease(w, step, t, until);
    case Finalize(_, _, _, _) => WorkersKeepLease(w, step, t, until);
    case _ =>
  }

  lemma ConfirmKeepsLease(w: World, step: Step, t: Ticket, until: Time)
    requires Inv(w) && Enabled(w, step) && step.Confirm? && HeldUntil(w, t, until)
    ensures HeldUntil(Next(w, step), t, until)
    ensures Next(w, step).store.rows[t.pk].status == w.store.rows[t.pk].status
  {
    if RowFor(w, step.raw).Some? {
      ConfirmEffect(w, step);
      if RowFor(w, step.raw).value != t.pk { assert Next(w, step).Row(t.pk) == w.Row(t.pk); }
    }
  }

  lemma SweepsKeepLease(w: World, step: Step, t: Ticket, until: Time)
    requires Inv(w) && Enabled(w, step) && HeldUntil(w, t, until) && w.clock < until
    requires step.ClaimRow? || step.Expire? || step.Discard?
    ensures step.pk != t.pk && HeldUntil(Next(w, step), t, until)
    ensures Next(w, step).store.rows[t.pk].status == w.store.rows[t.pk].status
  {
    RowEffect(w, step);
    assert Next(w, step).Row(t.pk) == w.Row(t.pk);
  }

  lemma WorkersKeepLease(w: World, step: Step, t: Ticket, until: Time)
    requires Inv(w) && Enabled(w, step) && HeldUntil(w, t, until)
    requires (step.Prepare? || step.Send? || step.Finalize?) && step.ticket != t
    ensures HeldUntil(Next(w, step), t, until)
    ensures Next(w, step).store.rows[t.pk].status == w.store.rows[t.pk].status
  {
    WorkerEffect(w, step);
    if step.ticket.pk != t.pk { assert Next(w, step).Row(t.pk) == w.Row(t.pk); }
  }

  lemma RequestKeepsLease(w: World, step: Step, t: Ticket, until: Time)
    requires Inv(w) && Enabled(w, step) && step.Request? && HeldUntil(w, t, until)
    ensures HeldUntil(Next(w, step), t, until)
    ensures Next(w, step).store.rows[t.pk].status == w.store.rows[t.pk].status
  {
    match RequestOutcomeFor(w.store, step.raw, step.at)
    case Opened => assert t.pk < w.nextPk && Next(w, step).store.rows[t.pk] == w.store.rows[t.pk];
    case Resent =>
      assert RowFor(w, step.raw) != Some(t.pk);
      assert Next(w, step).store.rows[t.pk] == w.store.rows[t.pk];
    case _ => assert Next(w, step) == w;
  }

  lemma {:induction false} LeaseHolds(w: World, steps: seq<Step>, t: Ticket, until: Time)
    requires Inv(w) && Run(w, steps) && HeldUntil(w, t, until) && End(w, steps).clock < until
    requires forall i | 0 <= i < |steps| :: !Ends(steps[i], t)
    ensures HeldUntil(End(w, steps), t, until) && w.clock < until
    ensures End(w, steps).store.rows[t.pk].status == w.store.rows[t.pk].status
    decreases |steps|
  {
    ClockAdvances(w, steps);
    if steps != [] {
      StepKeeps(w, steps[0]);
      StepKeepsLease(w, steps[0], t, until);
      LeaseHolds(Next(w, steps[0]), steps[1..], t, until);
    }
  }

  lemma {:induction false} ClockAdvances(w: World, steps: seq<Step>)
    requires Run(w, steps)
    ensures w.clock <= End(w, steps).clock
    decreases |steps|
  {
    if steps != [] { ClockAdvances(Next(w, steps[0]), steps[1..]); }
  }

  /** The ticket a claim hands out, or the one whose code is committed. */
  function Taken(w: World, step: Step): Ticket
    requires Enabled(w, step) && (step.ClaimRow? || step.Prepare?)
  {
    if step.ClaimRow? then Ticket(step.pk, w.store.rows[step.pk].generation + 1) else step.ticket
  }

  /** The step is a claim, or a prepare that commits a code. */
  predicate TakesLease(w: World, step: Step)
    requires Enabled(w, step)
  {
    || step.ClaimRow?
    || (step.Prepare? && step.ticket.generation in Next(w, step).log[step.ticket.pk].prepared)
  }

  /** A claim, and again a committed code, keeps the row the worker's own for the whole lease: unless
      the worker itself moves on or the row is purged for its age, nobody else claims, sweeps or
      resends it, whatever runs meanwhile. */
  lemma LeaseIsExclusive(users: map<UserId, User>, clock: Time, before: seq<Step>, step: Step, after: seq<Step>)
    requires Run(Start(users, clock), before) && Enabled(End(Start(users, clock), before), step)
    requires TakesLease(End(Start(users, clock), before), step)
    requires Run(Next(End(Start(users, clock), before), step), after)
    requires End(Next(End(Start(users, clock), before), step), after).clock < step.at + CLAIM_LEASE
    requires forall i | 0 <= i < |after| :: !Ends(after[i], Taken(End(Start(users, clock), before), step))
    ensures var w := End(Start(users, clock), before);
            var end := End(Next(w, step), after);
            && HeldUntil(end, Taken(w, step), step.at + CLAIM_LEASE)
            && end.store.rows[Taken(w, step).pk].status == if step.ClaimRow? then Claimed else Delivering
  {
    Reached(users, clock, before);
    var w := End(Start(users, clock), before);
    StepKeeps(w, step);
    LeaseGiven(w, step);
    LeaseHolds(Next(w, step), after, Taken(w, step), step.at + CLAIM_LEASE);
  }

  lemma LeaseGiven(w: World, step: Step)
    requires Inv(w) && Enabled(w, step) && TakesLease(w, step)
    ensures HeldUntil(Next(w, step), Taken(w, step), step.at + CLAIM_LEASE)
    ensures Next(w, step).store.rows[Taken(w, step).pk].status == if step.ClaimRow? then Claimed else Delivering
  {
    if step.ClaimRow? { ClaimHolds(w, step); } else { CommitHolds(w, step); }
  }

  lemma ClaimHolds(w: World, step: Step)
    requires Inv(w) && Enabled(w, step) && step.ClaimRow?
    ensures HeldUntil(Next(w, step), Taken(w, step), step.at + CLAIM_LEASE)
    ensures Next(w, step).store.rows[step.pk].status.Claimed?
  {}

  lemma CommitHolds(w: World, step: Step)
    requires Inv(w) && Enabled(w, step) && step.Prepare?
    requires step.ticket.generation in Next(w, step).log[step.ticket.pk].prepared
    ensures HeldUntil(Next(w, step), step.ticket, step.at + CLAIM_LEASE)
    ensures Next(w, step).store.rows[step.ticket.pk].status.Delivering?
  {
    var t := step.ticket;
    HeldMeansUnprepared(w, t);
    assert PrepareOutcomeFor(w.store, t.pk, t.generation, step.mailOn, step.code).Attempt?;
    AttemptHolds(w, step);
  }

  lemma AttemptHolds(w: World, step: Step)
    requires Enabled(w, step) && step.Prepare?
    requires PrepareOutcomeFor(w.store, step.ticket.pk, step.ticket.generation, step.mailOn, step.code).Attempt?
    ensures HeldUntil(Next(w, step), step.ticket, step.at + CLAIM_LEASE)
    ensures Next(w, step).store.rows[step.ticket.pk].status.Delivering?
  {}

  /** And when the lease has run out a claimed row may be claimed anew, and a delivering one is swept;
      not a moment before. */
  lemma LeaseEndsExactly(w: World, t: Ticket, until: Time, at: Time, owner: string, nonce: string)
    requires Inv(w) && HeldUntil(w, t, until) && at <= w.clock
    ensures Enabled(w, ClaimRow(t.pk, at, owner)) <==> w.store.rows[t.pk].status == Claimed && until <= at
    ensures Enabled(w, Expire(t.pk, at, nonce)) <==> w.store.rows[t.pk].status == Delivering && until <= at
  {}

  // ---- Rows and addresses --------------------------------------------------------------------

  /** What a row carries in each status. */
  predicate Shaped(e: Envelope) {
    && (e.terminalAt.Some? <==> e.status in {Consumed, Discarded, Undeliverable, DeliveryUnknown})
    && (e.claimExpiresAt.Some? <==> e.status.Claimed? || e.status.Delivering?)
    && (e.claimedAt.Some? <==> e.claimExpiresAt.Some?) && (e.claimOwner != "" ==> e.claimExpiresAt.Some?)
    && (e.consumedAt.Some? <==> e.status.Consumed?)
    && (e.expiresAt.Some? <==> e.status in {Delivering, Issued, Consumed})
    && (e.credential.Credential? <==> e.status in {Delivering, Issued, Consumed})
    && (e.supersededAt.Some? ==> e.status.Discarded?)
    && (e.status.Pending? || e.status.Claimed? ==> e.user.None?)
  }

  ghost predicate AllShaped(w: World) {
    forall pk | pk in w.store.rows :: Shaped(w.store.rows[pk])
  }

  lemma StepKeepsShape(w: World, step: Step, pk: Pk)
    requires Inv(w) && Enabled(w, step) && AllShaped(w) && pk in Next(w, step).store.rows
    requires !step.Confirm?
    ensures Shaped(Next(w, step).store.rows[pk])
  {
    match step
    case Request(_, _, _) => RequestKeepsShape(w, step, pk);
    case Prepare(t, at, mailOn, code, nonce) => PrepareKeepsShape(w.store, t, at, mailOn, code, nonce, pk);
    case Finalize(t, email, at, nonce) =>
      FinalizeKeepsShape(w.store, EnvelopeClaim(t.pk, t.generation, email), w.Worker(t).delivered, at, nonce, pk);
    case ClaimRow(_, _, _) => SweepKeepsShape(w, step, pk);
    case Expire(_, _, _) => SweepKeepsShape(w, step, pk);
    case Discard(_, _, _) => SweepKeepsShape(w, step, pk);
    case _ =>
  }

  lemma SweepKeepsShape(w: World, step: Step, pk: Pk)
    requires Inv(w) && Enabled(w, step) && AllShaped(w) && pk in Next(w, step).store.rows
    requires step.ClaimRow? || step.Expire? || step.Discard?
    ensures Shaped(Next(w, step).store.rows[pk])
  {
    var e := w.store.rows[step.pk];
    match step
    case ClaimRow(p, at, owner) =>
      assert Shaped(Leased(e, at, owner)) && Next(w, step).store.rows == w.store.rows[p := Leased(e, at, owner)];
    case Expire(p, at, nonce) =>
      assert Shaped(Unknown(e, at, nonce)) && Next(w, step).store.rows == w.store.rows[p := Unknown(e, at, nonce)];
    case Discard(p, at, nonce) =>
      var gone := Disarmed(e, Discarded, e.email, nonce, at);
      assert Shaped(gone) && Next(w, step).store.rows == w.store.rows[p := gone];
  }

  lemma RequestKeepsShape(w: World, step: Step, pk: Pk)
    requires Inv(w) && Enabled(w, step) && AllShaped(w) && step.Request? && pk in Next(w, step).store.rows
    ensures Shaped(Next(w, step).store.rows[pk])
  {
    match RequestOutcomeFor(w.store, step.raw, step.at)
    case Resent =>
      var touched := RowFor(w, step.raw).value;
      var e := Reentered(w.store.rows[touched], NormalizeEmail(step.raw).value, step.at, step.nonce);
      assert Next(w, step).store.rows == w.store.rows[touched := e] && Shaped(e);
    case Opened =>
      var e := Created(NormalizeEmail(step.raw).value, step.at, step.nonce);
      assert Next(w, step).store.rows == w.store.rows[w.nextPk := e] && Shaped(e);
    case _ => assert Next(w, step) == w;
  }

  lemma PrepareKeepsShape(s: Store, t: Ticket, at: Time, mailOn: bool, code: string, nonce: string, pk: Pk)
    requires forall p | p in s.rows :: Shaped(s.rows[p])
    ensures var s' := PreparedStore(s, t.pk, t.generation, at, mailOn, code, nonce);
            pk in s'.rows ==> Shaped(s'.rows[pk])
  {
    match PrepareOutcomeFor(s, t.pk, t.generation, mailOn, code)
    case Stale =>
    case Terminal(status) =>
      assert Shaped(Unleased(Disarmed(s.rows[t.pk], status, s.rows[t.pk].email, nonce, at)).(user := None));
    case Attempt(_, _) =>
      var uid := FindUser(s.users, s.rows[t.pk].email).value;
      assert Shaped(Armed(s.rows[t.pk], uid, s.users[uid].passwordHash, code, at));
  }

  lemma FinalizeKeepsShape(s: Store, claim: EnvelopeClaim, delivered: bool, at: Time, nonce: string, pk: Pk)
    requires forall p | p in s.rows :: Shaped(s.rows[p])
    ensures var s' := FinalizedStore(s, claim, delivered, at, nonce); pk in s'.rows ==> Shaped(s'.rows[pk])
  {}

  lemma ConfirmKeepsShape(w: World, step: Step, pk: Pk)
    requires Inv(w) && Enabled(w, step) && AllShaped(w) && step.Confirm? && pk in Next(w, step).store.rows
    ensures Shaped(Next(w, step).store.rows[pk])
  {
    if RowFor(w, step.raw).Some? {
      ConfirmEffect(w, step);
      var touched := RowFor(w, step.raw).value;
      assert CellInv(w.log[touched], w.Row(touched), w.clock);
      ConfirmedShape(w.store.users, w.store.rows[touched], NormalizeEmail(step.raw).value, step.code, step.newHash, step.at, step.nonce);
      if pk != touched { assert Next(w, step).Row(pk) == w.Row(pk); }
    }
  }

  lemma ConfirmedShape(users: map<UserId, User>, e: Envelope, email: string, code: string, newHash: Option<string>, at: Time, nonce: string)
    requires Shaped(e)
    ensures Shaped(ConfirmedRow(users, e, email, code, newHash, at, nonce))
  {}
  lemma {:induction false} RunKeepsShape(w: World, steps: seq<Step>)
    requires Inv(w) && Run(w, steps) && AllShaped(w)
    ensures AllShaped(End(w, steps))
    decreases |steps|
  {
    if steps != [] {
      StepKeeps(w, steps[0]);
      forall pk | pk in Next(w, steps[0]).store.rows ensures Shaped(Next(w, steps[0]).store.rows[pk]) {
        if steps[0].Confirm? { ConfirmKeepsShape(w, steps[0], pk); } else { StepKeepsShape(w, steps[0], pk); }
      }
      RunKeepsShape(Next(w, steps[0]), steps[1..]);
    }
  }

  /** Over every run a row has a terminal instant iff it is settled for good, a lease iff a worker holds
      it, a consumption instant iff it was consumed, and a bound credential iff a code of it was
      committed and not withdrawn. */
  lemma RowsAreShaped(users: map<UserId, User>, clock: Time, steps: seq<Step>, pk: Pk)
    requires Run(Start(users, clock), steps) && pk in End(Start(users, clock), steps).store.rows
    ensures Shaped(End(Start(users, clock), steps).store.rows[pk])
  {
    RunKeepsShape(Start(users, clock), steps);
  }

  /** A mailed code that could be redeemed at some instant stays so, whoever does what before it, but for
      its own address being typed or requested, its account being edited or redeemed elsewhere, and the
      row being purged for its age. */
  lemma RedeemableStays(w: World, step: Step, pk: Pk, email: string, code: string, newHash: Option<string>, at: Time)
    requires Inv(w) && Enabled(w, step) && pk in w.store.rows && pk in w.log && Redeems(w, pk, email, code, newHash, at)
    requires w.clock <= at && !step.EditUsers? && step != Purge(pk)
    requires (step.Request? || step.Confirm?) ==> RowFor(w, step.raw) != Some(pk)
    requires Redeeming(w, step) ==> Holder(w, step) != w.log[pk].user
    ensures pk in Next(w, step).store.rows && pk in Next(w, step).log && Redeems(Next(w, step), pk, email, code, newHash, at)
  {
    StepChangesAccounts(w, step);
    CodeKept(w, step, pk, at);
  }

  /** The row is untouched, and so is what its code rests on. */
  predicate KeepsCode(w: World, w': World, pk: Pk) {
    && pk in w.store.rows && w'.Row(pk) == w.Row(pk) && pk in w.log && pk in w'.log
    && var (l, l', g) := (w.log[pk], w'.log[pk], w.store.rows[pk].generation);
       && l'.confirms == l.confirms && l'.armedAt == l.armedAt && l'.user == l.user && l'.passwordHash == l.passwordHash
       && (g in l.mailed ==> g in l'.mailed && l'.mailed[g] == l.mailed[g])
  }

  lemma CodeKept(w: World, step: Step, pk: Pk, at: Time)
    requires Inv(w) && Enabled(w, step) && pk in w.store.rows && pk in w.log && w.store.rows[pk].status.Issued?
    requires w.clock <= at < w.log[pk].armedAt + CHALLENGE_TTL && w.log[pk].confirms < MAX_ATTEMPTS && step != Purge(pk)
    requires (step.Request? || step.Confirm?) ==> RowFor(w, step.raw) != Some(pk)
    ensures KeepsCode(w, Next(w, step), pk)
  {
    match step
    case Request(_, _, _) => OtherRequest(w, step, pk);
    case Confirm(_, _, _, _, _) => OtherConfirm(w, step, pk);
    case ClaimRow(_, _, _) => OtherRow(w, step, pk);
    case Expire(_, _, _) => OtherRow(w, step, pk);
    case Discard(_, _, _) => OtherDiscard(w, step, pk, at);
    case Prepare(_, _, _, _, _) => OtherWorker(w, step, pk);
    case Send(_, _) => OtherWorker(w, step, pk);
    case Finalize(_, _, _, _) => OtherWorker(w, step, pk);
    case _ => QuietKeepsCode(w, step, pk);
  }

  lemma QuietKeepsCode(w: World, step: Step, pk: Pk)
    requires Enabled(w, step) && pk in w.store.rows && pk in w.log && step != Purge(pk)
    requires step.Purge? || step.EditUsers? || step.Tick?
    ensures KeepsCode(w, Next(w, step), pk)
  {}

  lemma OtherDiscard(w: World, step: Step, pk: Pk, at: Time)
    requires Inv(w) && Enabled(w, step) && step.Discard? && pk in w.store.rows && pk in w.log && w.store.rows[pk].status.Issued?
    requires w.clock <= at < w.log[pk].armedAt + CHALLENGE_TTL && w.log[pk].confirms < MAX_ATTEMPTS
    ensures KeepsCode(w, Next(w, step), pk)
  {
    NotExhausted(w, pk, step.at);
    OtherRow(w, step, pk);
  }

  lemma NotExhausted(w: World, pk: Pk, at: Time)
    requires Inv(w) && pk in w.store.rows && pk in w.log && w.store.rows[pk].status.Issued?
    requires at < w.log[pk].armedAt + CHALLENGE_TTL && w.log[pk].confirms < MAX_ATTEMPTS
    ensures !Exhausted(w.store.rows[pk], at)
  {
    assert CellInv(w.log[pk], w.Row(pk), w.clock) && ArmedInv(w.log[pk], w.store.rows[pk]);
  }

  lemma OtherConfirm(w: World, step: Step, pk: Pk)
    requires Inv(w) && Enabled(w, step) && step.Confirm? && pk in w.store.rows && RowFor(w, step.raw) != Some(pk)
    ensures KeepsCode(w, Next(w, step), pk)
  {
    if RowFor(w, step.raw).Some? { ConfirmEffect(w, step); }
  }

  lemma OtherRequest(w: World, step: Step, pk: Pk)
    requires Inv(w) && Enabled(w, step) && step.Request? && pk in w.store.rows && RowFor(w, step.raw) != Some(pk)
    ensures KeepsCode(w, Next(w, step), pk)
  {
    assert pk < w.nextPk;
  }

  lemma OtherRow(w: World, step: Step, pk: Pk)
    requires Inv(w) && Enabled(w, step) && (step.ClaimRow? || step.Expire? || step.Discard?) && pk in w.store.rows && step.pk != pk
    ensures KeepsCode(w, Next(w, step), pk)
  {
    RowEffect(w, step);
  }

  /** What other workers of the row do changes neither it nor what its code rests on. */
  lemma OtherWorker(w: World, step: Step, pk: Pk)
    requires Inv(w) && Enabled(w, step) && (step.Prepare? || step.Send? || step.Finalize?) && pk in w.store.rows
    requires w.store.rows[pk].status.Issued?
    ensures KeepsCode(w, Next(w, step), pk)
  {
    WorkerEffect(w, step);
    if step.ticket.pk == pk { OwnWorker(w, step, pk); }
  }

  lemma OwnWorker(w: World, step: Step, pk: Pk)
    requires Inv(w) && Enabled(w, step) && (step.Prepare? || step.Send? || step.Finalize?) && pk in w.store.rows
    requires w.store.rows[pk].status.Issued? && step.ticket.pk == pk
    ensures KeepsCode(w, Next(w, step), pk)
  {
    assert CellInv(w.log[pk], w.Row(pk), w.clock);
    assert WorkerInv(w.log[pk], step.ticket.generation, w.log[pk].workers[step.ticket.generation]);
    match step
    case Prepare(t, _, mailOn, code, _) => assert PrepareOutcomeFor(w.store, t.pk, t.generation, mailOn, code).Stale?;
    case Send(t, _) => assert t.generation !in w.log[pk].mailed;
    case Finalize(t, _, _, _) => assert !Finalizable(w.store, t.pk, t.generation);
  }

  /** A good address in normal form is lower-case, stripped, and of 1 to 254 characters; every such
      address is its own normal form. */
  lemma NormalFormExactly(address: string)
    ensures NormalizeEmail(address) == Some(address) <==>
              Lower(address) == address && Strip(address) == address && 1 <= |address| <= 254
    ensures NormalizeEmail(address).Some? <==> 1 <= |Strip(address)| <= 254
    ensures NormalizeEmail(address).Some? ==> NormalizeEmail(NormalizeEmail(address).value) == NormalizeEmail(address)
  {
    StripTwice(address);
    LowerTwice(Strip(address));
    LowerStripped(Strip(address));
    if NormalizeEmail(address) == Some(address) { assert |Strip(address)| == |address|; StripShorter(address); }
  }

  lemma {:induction false} StripShorter(s: string)
    ensures |Strip(s)| <= |s| && (|Strip(s)| == |s| ==> Strip(s) == s)
    decreases |s|
  {
    if s != "" && IsSpace(s[0]) { StripShorter(s[1..]); } else if s != "" && IsSpace(s[|s| - 1]) { StripShorter(s[..|s| - 1]); }
  }

  lemma {:induction false} StripTwice(s: string)
    ensures Strip(Strip(s)) == Strip(s)
    ensures Strip(s) != "" ==> !IsSpace(Strip(s)[0]) && !IsSpace(Strip(s)[|Strip(s)| - 1])
    decreases |s|
  {
    if s != "" && IsSpace(s[0]) { StripTwice(s[1..]); } else if s != "" && IsSpace(s[|s| - 1]) { StripTwice(s[..|s| - 1]); }
  }

  lemma LowerStripped(s: string)
    requires Strip(s) == s
    ensures Strip(Lower(s)) == Lower(s)
  {
    StripTwice(s);
    if s != "" {
      assert Lower(s)[0] == LowerChar(s[0]) && Lower(s)[|s| - 1] == LowerChar(s[|s| - 1]);
    }
  }

  // ---- The way it is meant to go -------------------------------------------------------------

  /** Request, claim, mail and confirmation without any trouble. */
  function Recovery(raw: string, code: string, hash: string, at: Time, then': Time, nonce: string): seq<Step> {
    var t := Ticket(0, 2);
    [Request(raw, at, nonce), ClaimRow(0, at, ""), Prepare(t, at, true, code, nonce), Send(t, true),
     Finalize(t, raw, at, nonce), Tick(then'), Confirm(raw, code, Some(hash), then', nonce)]
  }

  /** Whoever may recover their password does, with any code typed within its ten minutes. */
  lemma RecoveryWorks(users: map<UserId, User>, u: UserId, raw: string, code: string, hash: string,
                      at: Time, then': Time, nonce: string)
    requires NormalizeEmail(raw).Some? && Carries(users, NormalizeEmail(raw).value, u) && MayRecover(users[u])
    requires NormalizeEmail(users[u].email) == NormalizeEmail(raw)
    requires at <= then' < at + 600
    ensures var (w, steps) := (Start(users, at), Recovery(raw, code, hash, at, then', nonce));
            && Run(w, steps)
            && End(w, steps).store.users == users[u := users[u].(passwordHash := hash, mustChangePassword := false)]
            && 0 in End(w, steps).log && |End(w, steps).log[0].sent| == 1
  {
    var w0, s := Start(users, at), Recovery(raw, code, hash, at, then', nonce);
    var email := NormalizeEmail(raw).value;
    var w5 := MailedCode(users, u, raw, code, hash, at, then', nonce);
    var w6 := Next(w5, s[5]);
    assert RowsNamed(w6.store.rows, email) == {0};
    assert ConfirmOutcomeFor(w6.store, raw, code, Some(hash), then') == Confirmed(u);
    Before(w6, s, 6);
    Before(w5, s, 5);
  }

  /** A row as the recovery leaves it when its mail has gone. */
  function Mailed(email: string, u: UserId, hash: string, code: string, at: Time, nonce: string): Envelope {
    Unleased(Armed(Leased(Created(email, at, nonce), at, ""), u, hash, code, at)).(status := Issued)
  }

  /** The steps up to the mail, from the end. */
  lemma MailedCode(users: map<UserId, User>, u: UserId, raw: string, code: string, hash: string,
                   at: Time, then': Time, nonce: string) returns (w5: World)
    requires NormalizeEmail(raw).Some? && Carries(users, NormalizeEmail(raw).value, u) && MayRecover(users[u])
    ensures var (w0, s, email) := (Start(users, at), Recovery(raw, code, hash, at, then', nonce), NormalizeEmail(raw).value);
            && w5.store == Store(map[0 := Mailed(email, u, users[u].passwordHash, code, at, nonce)], users)
            && w5.clock == at && 0 in w5.log && |w5.log[0].sent| == 1
            && (Run(w5, s[5..]) ==> Run(w0, s) && End(w0, s) == End(w5, s[5..]))
  {
    var w0, s := Start(users, at), Recovery(raw, code, hash, at, then', nonce);
    var w1, w2 := ClaimedFirst(users, raw, code, hash, at, then', nonce);
    var w3 := ArmedNext(w2, users, u, raw, code, hash, at, then', nonce);
    var w4;
    w4, w5 := SentNext(w3, Ticket(0, 2), code, raw, at, nonce);
    FiveSteps(w0, w1, w2, w3, w4, w5, s);
  }

  lemma FiveSteps(w0: World, w1: World, w2: World, w3: World, w4: World, w5: World, s: seq<Step>)
    requires |s| > 5 && Enabled(w0, s[0]) && w1 == Next(w0, s[0]) && Enabled(w1, s[1]) && w2 == Next(w1, s[1])
    requires Enabled(w2, s[2]) && w3 == Next(w2, s[2]) && Enabled(w3, s[3]) && w4 == Next(w3, s[3])
    requires Enabled(w4, s[4]) && w5 == Next(w4, s[4])
    ensures Run(w5, s[5..]) ==> Run(w0, s) && End(w0, s) == End(w5, s[5..])
  {
    if Run(w5, s[5..]) {
      Before(w4, s, 4);
      Before(w3, s, 3);
      Before(w2, s, 2);
      Before(w1, s, 1);
      Before(w0, s, 0);
      assert s[0..] == s;
    }
  }

  lemma SentNext(w3: World, t: Ticket, code: string, email: string, at: Time, nonce: string) returns (w4: World, w5: World)
    requires w3.At(t) && w3.Worker(t) == Prepared(code) && w3.log[t.pk].sent == [] && w3.clock == at
    requires t.pk in w3.store.rows && w3.store.rows[t.pk].generation == t.generation && w3.store.rows[t.pk].status == Delivering
    ensures Enabled(w3, Send(t, true)) && w4 == Next(w3, Send(t, true))
    ensures Enabled(w4, Finalize(t, email, at, nonce)) && w5 == Next(w4, Finalize(t, email, at, nonce))
    ensures w5.store == w3.store.(rows := w3.store.rows[t.pk := Unleased(w3.store.rows[t.pk]).(status := Issued)])
    ensures w5.clock == at && t.pk in w5.log && |w5.log[t.pk].sent| == 1
  {
    w4 := Next(w3, Send(t, true));
    w5 := Next(w4, Finalize(t, email, at, nonce));
  }

  lemma ClaimedFirst(users: map<UserId, User>, raw: string, code: string, hash: string,
                     at: Time, then': Time, nonce: string) returns (w1: World, w2: World)
    requires NormalizeEmail(raw).Some?
    ensures var (w0, s) := (Start(users, at), Recovery(raw, code, hash, at, then', nonce));
            && Enabled(w0, s[0]) && w1 == Next(w0, s[0]) && Enabled(w1, s[1]) && w2 == Next(w1, s[1])
            && w2.store == Store(map[0 := Leased(Created(NormalizeEmail(raw).value, at, nonce), at, "")], users) && w2.clock == at
            && w2.At(Ticket(0, 2)) && w2.Worker(Ticket(0, 2)).Held? && w2.log[0].sent == []
  {
    var w0, s := Start(users, at), Recovery(raw, code, hash, at, then', nonce);
    w1 := Next(w0, s[0]);
    assert w1.store.rows == map[0 := Created(NormalizeEmail(raw).value, at, nonce)];
    w2 := Next(w1, s[1]);
  }

  lemma ArmedNext(w2: World, users: map<UserId, User>, u: UserId, raw: string, code: string, hash: string,
                  at: Time, then': Time, nonce: string) returns (w3: World)
    requires NormalizeEmail(raw).Some? && Carries(users, NormalizeEmail(raw).value, u) && MayRecover(users[u])
    requires w2.store == Store(map[0 := Leased(Created(NormalizeEmail(raw).value, at, nonce), at, "")], users) && w2.clock == at
    requires w2.At(Ticket(0, 2)) && w2.Worker(Ticket(0, 2)).Held? && w2.log[0].sent == []
    ensures var (s, email) := (Recovery(raw, code, hash, at, then', nonce), NormalizeEmail(raw).value);
            && Enabled(w2, s[2]) && w3 == Next(w2, s[2]) && w3.clock == at
            && w3.store == Store(map[0 := Armed(Leased(Created(email, at, nonce), at, ""), u, users[u].passwordHash, code, at)], users)
            && w3.At(Ticket(0, 2)) && w3.Worker(Ticket(0, 2)) == Prepared(code) && w3.log[0].sent == []
  {
    var s := Recovery(raw, code, hash, at, then', nonce);
    LookupCarries(users, NormalizeEmail(raw).value);
    w3 := Next(w2, s[2]);
  }

  lemma Before(w: World, s: seq<Step>, i: nat)
    requires i < |s| && Enabled(w, s[i]) && Run(Next(w, s[i]), s[i + 1..])
    ensures Run(w, s[i..]) && End(w, s[i..]) == End(Next(w, s[i]), s[i + 1..])
  {
    assert s[i..][1..] == s[i + 1..];
  }
}
