/** Every interleaving of requests, drain workers, crashes, sweeps, purges, confirmations, account
    edits and the passing of time, over the transactions of PasswordReset.

    A worker is a ticket (row, generation) with a program counter; it crashes by never moving
    again. Times passed to a transaction were read from the clock earlier, so they may be stale. */
module PasswordResetRuns {
  import opened Common
  import opened PasswordReset

  datatype Ticket = Ticket(pk: Pk, generation: nat)

  datatype Phase = Held | Prepared(code: string) | Sent(delivered: bool) | Done(issued: bool)

  /** A mail handed to the provider: whose code, which accepted request it answers, and when. */
  datatype Mail = Mail(generation: nat, request: nat, at: Time)

  /** What happened to one row so far, and where the workers that claimed it are. */
  datatype Ledger = Ledger(
    workers: map<nat, Phase>,   // by claimed generation
    accepted: seq<Time>,        // requested_at of the creation and of every re-entry
    answers: map<nat, nat>,     // claimed generation -> index of the accepted request it answers
    prepared: set<nat>,         // generations whose code was committed
    mailed: map<nat, string>,   // generation -> code handed to the mail provider
    sent: seq<Mail>,            // the mails, in the order they left
    consumed: seq<nat>,         // generations whose code changed a password
    code: string,               // the latest committed code, for whom, and since when
    user: UserId,
    passwordHash: string,
    armedAt: Time,
    confirms: nat)              // confirmation attempts since then

  datatype World = World(store: Store, clock: Time, nextPk: Pk, log: map<Pk, Ledger>)
  {
    predicate At(t: Ticket) {
      t.pk in log && t.generation in log[t.pk].workers
    }

    function Worker(t: Ticket): Phase
      requires At(t)
    {
      log[t.pk].workers[t.generation]
    }

    function Row(pk: Pk): Option<Envelope> {
      if pk in store.rows then Some(store.rows[pk]) else None
    }
  }

  datatype Step =
    | Request(raw: string, at: Time, nonce: string)
    | ClaimRow(pk: Pk, at: Time, owner: string)
    | Prepare(ticket: Ticket, at: Time, mailOn: bool, code: string, nonce: string)
    | Send(ticket: Ticket, delivered: bool)
    | Finalize(ticket: Ticket, email: string, at: Time, nonce: string)
    | Expire(pk: Pk, at: Time, nonce: string)
    | Discard(pk: Pk, at: Time, nonce: string)
    | Confirm(raw: string, code: string, newHash: Option<string>, at: Time, nonce: string)
    | Purge(pk: Pk)
    | EditUsers(users: map<UserId, User>)
    | Tick(later: Time)

  predicate Enabled(w: World, step: Step) {
    match step
    case Request(_, at, _) => at <= w.clock
    case ClaimRow(pk, at, _) => at <= w.clock && pk in w.store.rows && pk in w.log && Claimable(w.store.rows[pk], at)
    case Prepare(t, at, _, _, _) => at <= w.clock && w.At(t) && w.Worker(t).Held?
    case Send(t, _) => w.At(t) && w.Worker(t).Prepared?
    case Finalize(t, _, at, _) => at <= w.clock && w.At(t) && w.Worker(t).Sent?
    case Expire(pk, at, _) => at <= w.clock && pk in w.store.rows && LeaseLost(w.store.rows[pk], at)
    case Discard(pk, at, _) => at <= w.clock && pk in w.store.rows && Exhausted(w.store.rows[pk], at)
    case Confirm(_, _, _, at, _) => at <= w.clock
    case Purge(pk) => pk in w.store.rows && Purgeable(w.store.rows[pk], w.clock)
    case EditUsers(_) => true
    case Tick(later) => w.clock <= later
  }

  /** The row an address leads to, if any. */
  function RowFor(w: World, raw: string): (found: Option<Pk>)
    ensures found.Some? ==> found.value in w.store.rows
  {
    match NormalizeEmail(raw)
    case None => None
    case Some(email) => FindRow(w.store.rows, email)
  }

  function Opening(at: Time): Ledger {
    Ledger(map[], [at], map[], {}, map[], [], [], "", 0, "", 0, 0)
  }

  function Reopening(l: Ledger, at: Time): Ledger {
    l.(accepted := l.accepted + [at])
  }

  function Arming(l: Ledger, generation: nat, code: string, uid: UserId, passwordHash: string, at: Time): Ledger {
    l.(workers := l.workers[generation := Prepared(code)], prepared := l.prepared + {generation},
       code := code, user := uid, passwordHash := passwordHash, armedAt := at, confirms := 0)
  }

  /** A claim answers the request accepted last. */
  function Claiming(l: Ledger, generation: nat): Ledger {
    Moved(l, generation, Held).(answers := l.answers[generation := if l.accepted == [] then 0 else |l.accepted| - 1])
  }

  function Mailing(l: Ledger, generation: nat, delivered: bool, at: Time): Ledger
    requires generation in l.workers && l.workers[generation].Prepared?
  {
    l.(workers := l.workers[generation := Sent(delivered)],
       mailed := l.mailed[generation := l.workers[generation].code],
       sent := l.sent + [Mail(generation, if generation in l.answers then l.answers[generation] else 0, at)])
  }

  function Confirming(l: Ledger, generation: nat, consumed: bool): Ledger {
    l.(confirms := l.confirms + 1, consumed := if consumed then l.consumed + [generation] else l.consumed)
  }

  function Moved(l: Ledger, generation: nat, phase: Phase): Ledger {
    l.(workers := l.workers[generation := phase])
  }

  function LogRequest(w: World, raw: string, at: Time): map<Pk, Ledger> {
    var found := RowFor(w, raw);
    match RequestOutcomeFor(w.store, raw, at)
    case Opened => w.log[w.nextPk := Opening(at)]
    case Resent => if found.Some? && found.value in w.log then w.log[found.value := Reopening(w.log[found.value], at)] else w.log
    case _ => w.log
  }

  function LogConfirm(w: World, raw: string, outcome: ConfirmOutcome): map<Pk, Ledger> {
    var found := RowFor(w, raw);
    if found.None? || found.value !in w.log then w.log
    else w.log[found.value := Confirming(w.log[found.value], w.store.rows[found.value].generation, outcome.Confirmed?)]
  }

  function Next(w: World, step: Step): World
    requires Enabled(w, step)
  {
    match step
    case Request(raw, at, nonce) =>
      w.(store := Requested(w.store, raw, at, w.nextPk, nonce),
         nextPk := if RequestOutcomeFor(w.store, raw, at) == Opened then w.nextPk + 1 else w.nextPk,
         log := LogRequest(w, raw, at))
    case ClaimRow(pk, at, owner) =>
      w.(store := ClaimedStore(w.store, pk, at, owner),
         log := w.log[pk := Claiming(w.log[pk], w.store.rows[pk].generation + 1)])
    case Prepare(t, at, mailOn, code, nonce) =>
      var l := w.log[t.pk];
      w.(store := PreparedStore(w.store, t.pk, t.generation, at, mailOn, code, nonce),
         log := w.log[t.pk :=
           if PrepareOutcomeFor(w.store, t.pk, t.generation, mailOn, code).Attempt? then
             var uid := FindUser(w.store.users, w.store.rows[t.pk].email).value;
             Arming(l, t.generation, code, uid, w.store.users[uid].passwordHash, at)
           else Moved(l, t.generation, Done(false))])
    case Send(t, delivered) => w.(log := w.log[t.pk := Mailing(w.log[t.pk], t.generation, delivered, w.clock)])
    case Finalize(t, email, at, nonce) =>
      var delivered := w.Worker(t).delivered;
      w.(store := FinalizedStore(w.store, EnvelopeClaim(t.pk, t.generation, email), delivered, at, nonce),
         log := w.log[t.pk := Moved(w.log[t.pk], t.generation, Done(delivered && Finalizable(w.store, t.pk, t.generation)))])
    case Expire(pk, at, nonce) => w.(store := ExpiredStore(w.store, pk, at, nonce))
    case Discard(pk, at, nonce) => w.(store := DiscardedStore(w.store, pk, at, nonce))
    case Confirm(raw, code, newHash, at, nonce) =>
      w.(store := ConfirmedStore(w.store, raw, code, newHash, at, nonce),
         log := LogConfirm(w, raw, ConfirmOutcomeFor(w.store, raw, code, newHash, at)))
    case Purge(pk) => w.(store := w.store.(rows := w.store.rows - {pk}))
    case EditUsers(users) => w.(store := w.store.(users := users))
    case Tick(later) => w.(clock := later)
  }

  function Start(users: map<UserId, User>, clock: Time): World {
    World(Store(map[], users), clock, 0, map[])
  }

  /** A run: every step is enabled where it is taken. */
  predicate Run(w: World, steps: seq<Step>)
    decreases |steps|
  {
    steps == [] || (Enabled(w, steps[0]) && Run(Next(w, steps[0]), steps[1..]))
  }

  function End(w: World, steps: seq<Step>): World
    requires Run(w, steps)
    decreases |steps|
  {
    if steps == [] then w else End(Next(w, steps[0]), steps[1..])
  }

  // ---- The invariant -----------------------------------------------------------------------

  ghost predicate Spaced(times: seq<Time>) {
    forall i, j | 0 <= i < j < |times| :: times[i] + RESEND_COOLDOWN * (j - i) <= times[j]
  }

  ghost predicate Rising(generations: seq<nat>) {
    forall i, j | 0 <= i < j < |generations| :: generations[i] < generations[j]
  }

  predicate WorkerInv(l: Ledger, generation: nat, phase: Phase) {
    match phase
    case Held => generation !in l.prepared
    case Prepared(_) => generation in l.prepared && generation !in l.mailed
    case Sent(_) => generation in l.mailed
    case Done(issued) => issued ==> generation in l.mailed
  }

  predicate ArmedInv(l: Ledger, e: Envelope) {
    && e.digest == OtpDigest(e.email, l.code)
    && e.user == Some(l.user)
    && e.credential == Credential(e.email, l.passwordHash)
    && e.expiresAt == Some(l.armedAt + CHALLENGE_TTL)
    && e.consumedAt == None
    && e.attempts == (if l.confirms < MAX_ATTEMPTS then l.confirms else MAX_ATTEMPTS)
  }

  ghost predicate RowInv(l: Ledger, e: Envelope) {
    var g := e.generation;
    && (forall u | u in l.workers :: u <= g)
    && |l.accepted| >= 1 && l.accepted[|l.accepted| - 1] == e.requestedAt
    && (e.status.Pending? || e.status.Claimed? ==> |l.prepared| < |l.accepted|)
    && (e.live <==> e.status.Delivering? || e.status.Issued?)
    && (e.live ==> ArmedInv(l, e))
    && (e.status.Claimed? ==> g in l.workers && l.workers[g].Held?)
    && (e.status.Delivering? ==>
          && g in l.workers
          && (l.workers[g] == Prepared(l.code) || (l.workers[g].Sent? && g in l.mailed && l.mailed[g] == l.code)))
    && (e.status.Issued? ==> g in l.workers && l.workers[g] == Done(true) && g in l.mailed && l.mailed[g] == l.code)
    && (l.consumed != [] ==>
          var last := l.consumed[|l.consumed| - 1];
          last <= g && (last == g ==> e.status.Consumed?))
  }

  ghost predicate CountInv(l: Ledger, clock: Time) {
    && |l.accepted| >= 1 && Spaced(l.accepted) && l.accepted[|l.accepted| - 1] <= clock
    && |l.sent| == |l.mailed| && |l.prepared| <= |l.accepted|
    && l.mailed.Keys <= l.prepared <= l.workers.Keys
    && Rising(l.consumed) && (forall g | g in l.consumed :: g in l.mailed)
  }

  ghost predicate WorkersInv(l: Ledger) {
    forall g | g in l.workers :: WorkerInv(l, g, l.workers[g])
  }

  ghost predicate LedgerInv(l: Ledger, clock: Time) {
    CountInv(l, clock) && WorkersInv(l)
  }

  ghost predicate CellInv(l: Ledger, row: Option<Envelope>, clock: Time) {
    LedgerInv(l, clock) && (row.Some? ==> RowInv(l, row.value))
  }

  ghost predicate Inv(w: World) {
    && w.store.rows.Keys <= w.log.Keys
    && (forall pk | pk in w.log :: pk < w.nextPk)
    && (forall pk | pk in w.log :: CellInv(w.log[pk], w.Row(pk), w.clock))
  }

  // ---- One row, one transition -------------------------------------------------------------

  lemma ReopenCell(l: Ledger, e: Envelope, email: string, at: Time, nonce: string, clock: Time)
    requires CellInv(l, Some(e), clock) && Reentrant(e.status)
    requires e.requestedAt <= at - RESEND_COOLDOWN && at <= clock
    ensures CellInv(Reopening(l, at), Some(Reentered(e, email, at, nonce)), clock)
  {
  }

  lemma ClaimCell(l: Ledger, e: Envelope, at: Time, owner: string, clock: Time)
    requires CellInv(l, Some(e), clock) && Claimable(e, at)
    ensures CellInv(Claiming(l, e.generation + 1), Some(Leased(e, at, owner)), clock)
  {
  }

  lemma ArmCounts(l: Ledger, g: nat, code: string, uid: UserId, hash: string, at: Time, clock: Time)
    requires CountInv(l, clock) && g in l.workers && |l.prepared| < |l.accepted|
    ensures CountInv(Arming(l, g, code, uid, hash, at), clock)
  {
    assert |l.prepared + {g}| <= |l.prepared| + 1;
  }

  lemma ArmWorkers(l: Ledger, g: nat, code: string, uid: UserId, hash: string, at: Time)
    requires WorkersInv(l) && g in l.workers && l.workers[g].Held? && l.mailed.Keys <= l.prepared
    ensures WorkersInv(Arming(l, g, code, uid, hash, at))
  {
    assert WorkerInv(l, g, l.workers[g]);
    assert forall h | h in Arming(l, g, code, uid, hash, at).workers :: h == g || WorkerInv(l, h, l.workers[h]);
  }

  lemma ArmRow(l: Ledger, e: Envelope, code: string, uid: UserId, hash: string, at: Time)
    requires RowInv(l, e) && e.status == Claimed
    ensures RowInv(Arming(l, e.generation, code, uid, hash, at), Armed(e, uid, hash, code, at))
  {
  }

  lemma ArmCell(l: Ledger, e: Envelope, code: string, uid: UserId, hash: string, at: Time, clock: Time)
    requires CellInv(l, Some(e), clock) && e.status == Claimed
    ensures CellInv(Arming(l, e.generation, code, uid, hash, at), Some(Armed(e, uid, hash, code, at)), clock)
  {
    ArmCounts(l, e.generation, code, uid, hash, at, clock);
    ArmWorkers(l, e.generation, code, uid, hash, at);
    ArmRow(l, e, code, uid, hash, at);
  }

  /** A worker that stops, for whatever reason, without touching a row it does not own. */
  lemma StopCell(l: Ledger, row: Option<Envelope>, g: nat, clock: Time)
    requires CellInv(l, row, clock) && g in l.workers
    requires row.Some? && row.value.generation == g ==> row.value.status !in {Claimed, Delivering, Issued}
    ensures CellInv(Moved(l, g, Done(false)), row, clock)
  {
  }

  lemma MailCell(l: Ledger, row: Option<Envelope>, g: nat, delivered: bool, clock: Time)
    requires CellInv(l, row, clock) && g in l.workers && l.workers[g].Prepared?
    ensures CellInv(Mailing(l, g, delivered, clock), row, clock)
  {
    assert WorkerInv(l, g, l.workers[g]);
  }

  lemma IssueCell(l: Ledger, e: Envelope, clock: Time)
    requires CellInv(l, Some(e), clock) && e.status == Delivering
    requires e.generation in l.workers && l.workers[e.generation] == Sent(true)
    ensures CellInv(Moved(l, e.generation, Done(true)), Some(Unleased(e).(status := Issued)), clock)
  {
  }

  /** Disarming keeps the row's invariant whether or not its generation moves. */
  lemma DisarmCell(l: Ledger, e: Envelope, e': Envelope, clock: Time)
    requires CellInv(l, Some(e), clock)
    requires !e'.live && e'.status in {Discarded, Undeliverable, DeliveryUnknown}
    requires e'.generation >= e.generation && e'.requestedAt == e.requestedAt
    requires e'.generation == e.generation ==> !e.status.Consumed?
    ensures CellInv(l, Some(e'), clock)
  {
  }

  lemma ConfirmCell(l: Ledger, e: Envelope, clock: Time)
    requires CellInv(l, Some(e), clock)
    ensures CellInv(Confirming(l, e.generation, false), Some(Attempted(e)), clock)
  {
  }

  lemma SpendCell(l: Ledger, e: Envelope, email: string, at: Time, nonce: string, clock: Time)
    requires CellInv(l, Some(e), clock) && e.status == Issued
    ensures CellInv(Confirming(l, e.generation, true), Some(Spent(Attempted(e), email, at, nonce)), clock)
  {
  }

  // ---- Every step keeps the invariant ------------------------------------------------------

  ghost predicate Indexed(w: World) {
    w.store.rows.Keys <= w.log.Keys && forall pk | pk in w.log :: pk < w.nextPk
  }

  /** The step rewrote one row and its ledger, to these values, and no other row or ledger. */
  ghost predicate Touched(w: World, w': World, pk: Pk, l: Ledger, row: Option<Envelope>) {
    && w.clock == w'.clock && w.nextPk == w'.nextPk
    && w'.log.Keys == w.log.Keys && w'.store.rows.Keys <= w.log.Keys
    && pk in w.log && w'.log[pk] == l && w'.Row(pk) == row
    && forall other | other in w.log && other != pk :: w'.log[other] == w.log[other] && w'.Row(other) == w.Row(other)
  }

  lemma Local(w: World, w': World, pk: Pk, l: Ledger, row: Option<Envelope>)
    requires Inv(w) && Touched(w, w', pk, l, row)
    requires CellInv(l, row, w.clock)
    ensures Inv(w')
  {
    forall other | other in w'.log ensures CellInv(w'.log[other], w'.Row(other), w'.clock) {
      if other != pk {
        assert CellInv(w.log[other], w.Row(other), w.clock);
      }
    }
  }

  lemma OpenKeeps(w: World, step: Step)
    requires Inv(w) && step.Request? && Enabled(w, step)
    requires RequestOutcomeFor(w.store, step.raw, step.at) == Opened
    ensures Inv(Next(w, step))
  {
    var w' := Next(w, step);
    var e := Created(NormalizeEmail(step.raw).value, step.at, step.nonce);
    assert w'.log == w.log[w.nextPk := Opening(step.at)] && w'.store.rows == w.store.rows[w.nextPk := e];
    forall pk | pk in w'.log ensures CellInv(w'.log[pk], w'.Row(pk), w'.clock) {
      if pk != w.nextPk {
        assert CellInv(w.log[pk], w.Row(pk), w.clock);
      }
    }
  }

  lemma ResendEffect(w: World, step: Step) returns (pk: Pk)
    requires Indexed(w) && step.Request? && Enabled(w, step)
    requires RequestOutcomeFor(w.store, step.raw, step.at) == Resent
    ensures pk in w.store.rows && Reentrant(w.store.rows[pk].status)
    ensures w.store.rows[pk].requestedAt <= step.at - RESEND_COOLDOWN && step.at <= w.clock
    ensures Touched(w, Next(w, step), pk, Reopening(w.log[pk], step.at),
                    Some(Reentered(w.store.rows[pk], NormalizeEmail(step.raw).value, step.at, step.nonce)))
  {
    pk := RowFor(w, step.raw).value;
  }

  lemma RequestKeeps(w: World, step: Step)
    requires Inv(w) && step.Request? && Enabled(w, step)
    ensures Inv(Next(w, step))
  {
    var outcome := RequestOutcomeFor(w.store, step.raw, step.at);
    if outcome == Opened {
      OpenKeeps(w, step);
    } else if outcome == Resent {
      var pk := ResendEffect(w, step);
      var email := NormalizeEmail(step.raw).value;
      ReopenCell(w.log[pk], w.store.rows[pk], email, step.at, step.nonce, w.clock);
      Local(w, Next(w, step), pk, Reopening(w.log[pk], step.at), Some(Reentered(w.store.rows[pk], email, step.at, step.nonce)));
    } else {
      assert Next(w, step) == w;
    }
  }

  /** Leasing and the two sweeps write one row; only leasing moves a worker. */
  lemma RowEffect(w: World, step: Step)
    requires Indexed(w) && (step.ClaimRow? || step.Expire? || step.Discard?) && Enabled(w, step)
    ensures var e := w.store.rows[step.pk];
            Touched(w, Next(w, step), step.pk,
                    if step.ClaimRow? then Claiming(w.log[step.pk], e.generation + 1) else w.log[step.pk],
                    Some(match step
                         case ClaimRow(_, at, owner) => Leased(e, at, owner)
                         case Expire(_, at, nonce) => Unknown(e, at, nonce)
                         case Discard(_, at, nonce) => Disarmed(e, Discarded, e.email, nonce, at)))
  {
  }

  lemma ClaimKeeps(w: World, step: Step)
    requires Inv(w) && step.ClaimRow? && Enabled(w, step)
    ensures Inv(Next(w, step))
  {
    RowEffect(w, step);
    var l, e := w.log[step.pk], w.store.rows[step.pk];
    assert CellInv(l, w.Row(step.pk), w.clock);
    ClaimCell(l, e, step.at, step.owner, w.clock);
    Local(w, Next(w, step), step.pk, Claiming(l, e.generation + 1), Some(Leased(e, step.at, step.owner)));
  }

  /** The row after a worker's transaction on it. */
  function WorkerRow(w: World, step: Step): Option<Envelope>
    requires step.Prepare? || step.Send? || step.Finalize?
    requires Enabled(w, step)
  {
    Next(w, step).Row(step.ticket.pk)
  }

  lemma WorkerEffect(w: World, step: Step)
    requires Indexed(w) && (step.Prepare? || step.Send? || step.Finalize?) && Enabled(w, step)
    ensures Touched(w, Next(w, step), step.ticket.pk, Next(w, step).log[step.ticket.pk], WorkerRow(w, step))
  {
  }

  lemma PrepareKeeps(w: World, step: Step)
    requires Inv(w) && step.Prepare? && Enabled(w, step)
    ensures Inv(Next(w, step))
  {
    var t := step.ticket;
    var l, row := w.log[t.pk], w.Row(t.pk);
    assert CellInv(l, row, w.clock);
    var l', row' := Next(w, step).log[t.pk], WorkerRow(w, step);
    assert CellInv(l', row', w.clock) by {
      PrepareCell(l, row, w.store, step.ticket, step.at, step.mailOn, step.code, step.nonce, w.clock);
    }
    WorkerEffect(w, step);
    Local(w, Next(w, step), t.pk, l', row');
  }

  lemma PrepareCell(l: Ledger, row: Option<Envelope>, s: Store, t: Ticket, at: Time, mailOn: bool, code: string, nonce: string, clock: Time)
    requires CellInv(l, row, clock) && t.generation in l.workers
    requires row == if t.pk in s.rows then Some(s.rows[t.pk]) else None
    ensures var s' := PreparedStore(s, t.pk, t.generation, at, mailOn, code, nonce);
            var row' := if t.pk in s'.rows then Some(s'.rows[t.pk]) else None;
            var uid := FindUser(s.users, if row.Some? then row.value.email else "");
            var l' := if PrepareOutcomeFor(s, t.pk, t.generation, mailOn, code).Attempt?
                      then Arming(l, t.generation, code, uid.value, s.users[uid.value].passwordHash, at)
                      else Moved(l, t.generation, Done(false));
            l.workers[t.generation].Held? ==> CellInv(l', row', clock)
  {
    match PrepareOutcomeFor(s, t.pk, t.generation, mailOn, code)
    case Stale =>
      if l.workers[t.generation].Held? {
        StopCell(l, row, t.generation, clock);
      }
    case Terminal(status) =>
      var e' := Unleased(Disarmed(row.value, status, row.value.email, nonce, at)).(user := None);
      DisarmCell(l, row.value, e', clock);
      StopCell(l, Some(e'), t.generation, clock);
    case Attempt(_, _) =>
      var uid := FindUser(s.users, row.value.email).value;
      ArmCell(l, row.value, code, uid, s.users[uid].passwordHash, at, clock);
  }

  lemma SendKeeps(w: World, step: Step)
    requires Inv(w) && step.Send? && Enabled(w, step)
    ensures Inv(Next(w, step))
  {
    var t := step.ticket;
    assert CellInv(w.log[t.pk], w.Row(t.pk), w.clock);
    MailCell(w.log[t.pk], w.Row(t.pk), t.generation, step.delivered, w.clock);
    WorkerEffect(w, step);
    Local(w, Next(w, step), t.pk, Mailing(w.log[t.pk], t.generation, step.delivered, w.clock), w.Row(t.pk));
  }

  lemma FinalizeKeeps(w: World, step: Step)
    requires Inv(w) && step.Finalize? && Enabled(w, step)
    ensures Inv(Next(w, step))
  {
    var t := step.ticket;
    var l, row := w.log[t.pk], w.Row(t.pk);
    assert CellInv(l, row, w.clock);
    if !Finalizable(w.store, t.pk, t.generation) {
      StopCell(l, row, t.generation, w.clock);
    } else if w.Worker(t).delivered {
      IssueCell(l, row.value, w.clock);
    } else {
      var e' := Unleased(Disarmed(row.value, Undeliverable, step.email, step.nonce, step.at));
      DisarmCell(l, row.value, e', w.clock);
      StopCell(l, Some(e'), t.generation, w.clock);
    }
    WorkerEffect(w, step);
    Local(w, Next(w, step), t.pk, Next(w, step).log[t.pk], WorkerRow(w, step));
  }

  /** The row after a confirmation that reached it. */
  function ConfirmedRow(users: map<UserId, User>, e: Envelope, email: string, code: string, newHash: Option<string>, at: Time, nonce: string): Envelope {
    if !StageOne(e, email, code, at) then Attempted(e)
    else if !CredentialStateMatches(users, e, email) then
      Disarmed(Attempted(e), Discarded, e.email, nonce, at).(supersededAt := Some(at))
    else if newHash.None? then Attempted(e)
    else Spent(Attempted(e), email, at, nonce)
  }

  lemma ConfirmEffect(w: World, step: Step)
    requires Indexed(w) && step.Confirm? && Enabled(w, step) && RowFor(w, step.raw).Some?
    ensures var pk := RowFor(w, step.raw).value;
            var e := w.store.rows[pk];
            Touched(w, Next(w, step), pk,
                    Confirming(w.log[pk], e.generation, ConfirmOutcomeFor(w.store, step.raw, step.code, step.newHash, step.at).Confirmed?),
                    Some(ConfirmedRow(w.store.users, e, NormalizeEmail(step.raw).value, step.code, step.newHash, step.at, step.nonce)))
  {
  }

  lemma ConfirmRowCell(l: Ledger, e: Envelope, users: map<UserId, User>, email: string, code: string, newHash: Option<string>, at: Time, nonce: string, clock: Time)
    requires CellInv(l, Some(e), clock)
    ensures var e' := ConfirmedRow(users, e, email, code, newHash, at, nonce);
            CellInv(Confirming(l, e.generation, e'.status.Consumed? && !e.status.Consumed?), Some(e'), clock)
  {
    ConfirmCell(l, e, clock);
    if StageOne(e, email, code, at) {
      if !CredentialStateMatches(users, e, email) {
        DisarmCell(Confirming(l, e.generation, false), Attempted(e), ConfirmedRow(users, e, email, code, newHash, at, nonce), clock);
      } else if newHash.Some? {
        SpendCell(l, e, email, at, nonce, clock);
      }
    }
  }

  lemma ConfirmKeeps(w: World, step: Step)
    requires Inv(w) && step.Confirm? && Enabled(w, step)
    ensures Inv(Next(w, step))
  {
    var found := RowFor(w, step.raw);
    if found.Some? {
      var pk := found.value;
      assert CellInv(w.log[pk], w.Row(pk), w.clock);
      ConfirmRowCell(w.log[pk], w.store.rows[pk], w.store.users, NormalizeEmail(step.raw).value, step.code, step.newHash, step.at, step.nonce, w.clock);
      ConfirmEffect(w, step);
      Local(w, Next(w, step), pk, Next(w, step).log[pk], Next(w, step).Row(pk));
    } else {
      assert Next(w, step) == w;
    }
  }

  lemma SweepKeeps(w: World, step: Step)
    requires Inv(w) && (step.Expire? || step.Discard?) && Enabled(w, step)
    ensures Inv(Next(w, step))
  {
    RowEffect(w, step);
    var l, e := w.log[step.pk], w.store.rows[step.pk];
    assert CellInv(l, w.Row(step.pk), w.clock);
    var e' := if step.Expire? then Unknown(e, step.at, step.nonce) else Disarmed(e, Discarded, e.email, step.nonce, step.at);
    DisarmCell(l, e, e', w.clock);
    Local(w, Next(w, step), step.pk, l, Some(e'));
  }

  lemma QuietKeeps(w: World, step: Step)
    requires Inv(w) && (step.Purge? || step.EditUsers? || step.Tick?) && Enabled(w, step)
    ensures Inv(Next(w, step))
  {
    var w' := Next(w, step);
    forall pk | pk in w'.log ensures CellInv(w'.log[pk], w'.Row(pk), w'.clock) {
      assert CellInv(w.log[pk], w.Row(pk), w.clock);
      assert w'.Row(pk) == w.Row(pk) || w'.Row(pk) == None;
    }
  }

  lemma StepKeeps(w: World, step: Step)
    requires Inv(w) && Enabled(w, step)
    ensures Inv(Next(w, step))
  {
    match step
    case Request(_, _, _) => RequestKeeps(w, step);
    case ClaimRow(_, _, _) => ClaimKeeps(w, step);
    case Prepare(_, _, _, _, _) => PrepareKeeps(w, step);
    case Send(_, _) => SendKeeps(w, step);
    case Finalize(_, _, _, _) => FinalizeKeeps(w, step);
    case Expire(_, _, _) => SweepKeeps(w, step);
    case Discard(_, _, _) => SweepKeeps(w, step);
    case Confirm(_, _, _, _, _) => ConfirmKeeps(w, step);
    case _ => QuietKeeps(w, step);
  }

  lemma {:induction false} RunKeeps(w: World, steps: seq<Step>)
    requires Inv(w) && Run(w, steps)
    ensures Inv(End(w, steps))
    decreases |steps|
  {
    if steps != [] {
      StepKeeps(w, steps[0]);
      RunKeeps(Next(w, steps[0]), steps[1..]);
    }
  }

  lemma Reached(users: map<UserId, User>, clock: Time, steps: seq<Step>)
    requires Run(Start(users, clock), steps)
    ensures Inv(End(Start(users, clock), steps))
  {
    RunKeeps(Start(users, clock), steps);
  }

  // ---- Safety over whole runs --------------------------------------------------------------

  /** No interleaving mails more often than requests were accepted, accepted requests are a
      cooldown apart, and the n-th mail leaves at least n-1 cooldowns after the first request. */
  lemma MailsNeverExceedAcceptedRequests(users: map<UserId, User>, clock: Time, steps: seq<Step>, pk: Pk)
    requires Run(Start(users, clock), steps)
    requires pk in End(Start(users, clock), steps).log
    ensures var w := End(Start(users, clock), steps);
            var l := w.log[pk];
            && |l.sent| <= |l.accepted| && l.accepted != []
            && (forall i, j | 0 <= i < j < |l.accepted| :: l.accepted[i] + RESEND_COOLDOWN * (j - i) <= l.accepted[j])
            && l.accepted[0] + RESEND_COOLDOWN * (|l.sent| - 1) <= w.clock
  {
    Reached(users, clock, steps);
    var w := End(Start(users, clock), steps);
    MailsCounted(w.log[pk], w.Row(pk), w.clock);
  }

  lemma MailsCounted(l: Ledger, row: Option<Envelope>, clock: Time)
    requires CellInv(l, row, clock)
    ensures |l.sent| <= |l.accepted|
    ensures l.accepted[0] + RESEND_COOLDOWN * (|l.sent| - 1) <= clock
  {
    SubsetSize(l.mailed.Keys, l.prepared);
    assert |l.mailed.Keys| == |l.mailed|;
  }

  /** The secret is marked live exactly while it is being delivered or may be redeemed. */
  lemma LiveExactlyWhileIssued(users: map<UserId, User>, clock: Time, steps: seq<Step>, pk: Pk)
    requires Run(Start(users, clock), steps)
    requires pk in End(Start(users, clock), steps).store.rows
    ensures var e := End(Start(users, clock), steps).store.rows[pk];
            e.live <==> e.status == Delivering || e.status == Issued
  {
    Reached(users, clock, steps);
    var w := End(Start(users, clock), steps);
    assert CellInv(w.log[pk], w.Row(pk), w.clock);
  }

  lemma {:induction false} RisingFits(generations: seq<nat>, pool: set<nat>)
    requires Rising(generations) && forall g | g in generations :: g in pool
    ensures |generations| <= |pool|
    decreases |generations|
  {
    if generations != [] {
      var last := generations[|generations| - 1];
      var front := generations[..|generations| - 1];
      assert forall g | g in front :: g in generations && g != last;
      RisingFits(front, pool - {last});
    }
  }

  /** Each committed code changes at most one password, and only if it was mailed. */
  lemma OnePasswordChangePerMail(users: map<UserId, User>, clock: Time, steps: seq<Step>, pk: Pk)
    requires Run(Start(users, clock), steps)
    requires pk in End(Start(users, clock), steps).log
    ensures var l := End(Start(users, clock), steps).log[pk];
            && (forall i, j | 0 <= i < j < |l.consumed| :: l.consumed[i] < l.consumed[j])
            && (forall g | g in l.consumed :: g in l.mailed)
            && |l.consumed| <= |l.sent|
  {
    Reached(users, clock, steps);
    var w := End(Start(users, clock), steps);
    assert CellInv(w.log[pk], w.Row(pk), w.clock);
    RisingFits(w.log[pk].consumed, w.log[pk].mailed.Keys);
  }

  /** When, in terms of the row's history, a confirmation changes a password: the code is the one
      mailed for the row's current generation, at most four confirmations came before it since that
      code was committed, it is in time, and the account's address and credential are unchanged. */
  ghost predicate Redeems(w: World, pk: Pk, email: string, code: string, newHash: Option<string>, at: Time)
    requires pk in w.store.rows && pk in w.log
  {
    var l, e := w.log[pk], w.store.rows[pk];
    && e.status == Issued && e.email == email
    && e.generation in l.mailed && l.mailed[e.generation] == code
    && l.confirms < MAX_ATTEMPTS && at < l.armedAt + CHALLENGE_TTL
    && l.user in w.store.users
    && newHash.Some?
    && var account := w.store.users[l.user];
       && account.active && account.accessActive && !account.dumpStub && !account.walkIn && !account.anonymousRequester
       && NormalizeEmail(account.email) == Some(email) && account.passwordHash == l.passwordHash
  }

  lemma ConfirmationRedeemsExactly(users: map<UserId, User>, clock: Time, steps: seq<Step>, step: Step)
    requires Run(Start(users, clock), steps)
    requires step.Confirm? && Enabled(End(Start(users, clock), steps), step)
    ensures var w := End(Start(users, clock), steps);
            var found := RowFor(w, step.raw);
            && (found.Some? ==> found.value in w.log)
            && (ConfirmOutcomeFor(w.store, step.raw, step.code, step.newHash, step.at).Confirmed? <==>
                  found.Some? && Redeems(w, found.value, NormalizeEmail(step.raw).value, step.code, step.newHash, step.at))
            && (ConfirmOutcomeFor(w.store, step.raw, step.code, step.newHash, step.at).Confirmed? ==>
                  ConfirmOutcomeFor(w.store, step.raw, step.code, step.newHash, step.at).user == w.log[found.value].user)
  {
    Reached(users, clock, steps);
    RedeemsExactly(End(Start(users, clock), steps), step);
  }

  lemma RedeemsExactly(w: World, step: Step)
    requires Inv(w) && step.Confirm? && Enabled(w, step)
    ensures var found := RowFor(w, step.raw);
            var outcome := ConfirmOutcomeFor(w.store, step.raw, step.code, step.newHash, step.at);
            && (found.Some? ==> found.value in w.log)
            && (outcome.Confirmed? <==>
                  found.Some? && Redeems(w, found.value, NormalizeEmail(step.raw).value, step.code, step.newHash, step.at))
            && (outcome.Confirmed? ==> outcome.user == w.log[found.value].user)
  {
    var found := RowFor(w, step.raw);
    if found.Some? {
      assert CellInv(w.log[found.value], w.Row(found.value), w.clock);
    }
  }

  // ---- Generation fencing ------------------------------------------------------------------

  /** The claim's row is gone or has moved on to a later generation. */
  predicate Superseded(w: World, t: Ticket) {
    t.pk in w.log && (t.pk in w.store.rows ==> t.generation < w.store.rows[t.pk].generation)
  }

  /** A claim's ticket was never handed out before. */
  lemma ClaimsAreUnique(users: map<UserId, User>, clock: Time, steps: seq<Step>, step: Step)
    requires Run(Start(users, clock), steps)
    requires step.ClaimRow? && Enabled(End(Start(users, clock), steps), step)
    ensures var w := End(Start(users, clock), steps);
            var t := Ticket(step.pk, w.store.rows[step.pk].generation + 1);
            !w.At(t) && Next(w, step).At(t)
  {
    Reached(users, clock, steps);
    FreshTicket(End(Start(users, clock), steps), step);
  }

  lemma FreshTicket(w: World, step: Step)
    requires Inv(w) && step.ClaimRow? && Enabled(w, step)
    ensures var t := Ticket(step.pk, w.store.rows[step.pk].generation + 1);
            !w.At(t) && Next(w, step).At(t)
  {
    assert CellInv(w.log[step.pk], w.Row(step.pk), w.clock);
  }

  lemma RequestFences(w: World, step: Step, t: Ticket)
    requires Indexed(w) && step.Request? && Enabled(w, step) && Superseded(w, t)
    ensures Superseded(Next(w, step), t)
    ensures Next(w, step).log[t.pk].consumed == w.log[t.pk].consumed
  {
  }

  lemma ConfirmFences(w: World, step: Step, t: Ticket)
    requires Indexed(w) && step.Confirm? && Enabled(w, step) && Superseded(w, t)
    ensures Superseded(Next(w, step), t)
    ensures forall g | g <= t.generation :: g in Next(w, step).log[t.pk].consumed <==> g in w.log[t.pk].consumed
  {
    if RowFor(w, step.raw).Some? {
      ConfirmEffect(w, step);
    }
  }

  lemma WorkerFences(w: World, step: Step, t: Ticket)
    requires Indexed(w) && (step.Prepare? || step.Send? || step.Finalize?) && Enabled(w, step) && Superseded(w, t)
    ensures Superseded(Next(w, step), t)
    ensures step.ticket == t ==> Next(w, step).store == w.store
    ensures Next(w, step).log[t.pk].consumed == w.log[t.pk].consumed
  {
    WorkerEffect(w, step);
  }

  lemma StepFences(w: World, step: Step, t: Ticket)
    requires Indexed(w) && Enabled(w, step) && Superseded(w, t)
    ensures Superseded(Next(w, step), t)
    ensures forall g | g <= t.generation :: g in Next(w, step).log[t.pk].consumed <==> g in w.log[t.pk].consumed
  {
    match step
    case Request(_, _, _) => RequestFences(w, step, t);
    case Confirm(_, _, _, _, _) => ConfirmFences(w, step, t);
    case Prepare(_, _, _, _, _) => WorkerFences(w, step, t);
    case Send(_, _) => WorkerFences(w, step, t);
    case Finalize(_, _, _, _) => WorkerFences(w, step, t);
    case ClaimRow(_, _, _) => RowEffect(w, step);
    case Expire(_, _, _) => RowEffect(w, step);
    case Discard(_, _, _) => RowEffect(w, step);
    case _ =>
  }

  /** Once superseded, always superseded: along any continuation that worker's transactions change
      no row, and no code of that generation or an earlier one ever changes a password again. */
  lemma {:induction false} SupersededForever(w: World, steps: seq<Step>, t: Ticket)
    requires Inv(w) && Run(w, steps) && Superseded(w, t)
    ensures Superseded(End(w, steps), t)
    ensures forall g | g <= t.generation :: g in End(w, steps).log[t.pk].consumed <==> g in w.log[t.pk].consumed
    decreases |steps|
  {
    if steps != [] {
      StepKeeps(w, steps[0]);
      StepFences(w, steps[0], t);
      SupersededForever(Next(w, steps[0]), steps[1..], t);
    }
  }

  /** Sweeping a lost lease supersedes the worker that lost it: whatever follows, its transactions
      leave every row alone and neither its code nor an earlier one changes a password again. */
  lemma LateWorkerNeverWins(users: map<UserId, User>, clock: Time, before: seq<Step>, sweep: Step, after: seq<Step>, late: Step)
    requires Run(Start(users, clock), before)
    requires sweep.Expire? && Enabled(End(Start(users, clock), before), sweep)
    requires Run(Next(End(Start(users, clock), before), sweep), after)
    requires Enabled(End(Next(End(Start(users, clock), before), sweep), after), late)
    ensures var w := End(Start(users, clock), before);
            var t := Ticket(sweep.pk, w.store.rows[sweep.pk].generation);
            var w' := Next(w, sweep);
            var now := End(w', after);
            && w'.store.rows[sweep.pk].status == DeliveryUnknown
            && ((late.Prepare? || late.Finalize?) && late.ticket == t ==> Next(now, late).store == now.store)
            && t.pk in w.log && t.pk in now.log
            && forall g | g <= t.generation :: g in now.log[t.pk].consumed <==> g in w.log[t.pk].consumed
  {
    Reached(users, clock, before);
    var w := End(Start(users, clock), before);
    var t := Ticket(sweep.pk, w.store.rows[sweep.pk].generation);
    StepKeeps(w, sweep);
    RowEffect(w, sweep);
    SupersededForever(Next(w, sweep), after, t);
    RunKeeps(Next(w, sweep), after);
    if late.Prepare? || late.Finalize? {
      WorkerFences(End(Next(w, sweep), after), late, t);
    }
  }

  // ---- A batch is the run of its rows ------------------------------------------------------

  datatype BatchKind = LeaseBatch(owner: string) | ExpireBatch(nonce: string) | DiscardBatch(nonce: string)

  function RowStep(kind: BatchKind, pk: Pk, at: Time): Step {
    match kind
    case LeaseBatch(owner) => ClaimRow(pk, at, owner)
    case ExpireBatch(nonce) => Expire(pk, at, nonce)
    case DiscardBatch(nonce) => Discard(pk, at, nonce)
  }

  function RowUpdate(kind: BatchKind, at: Time): Envelope -> Envelope {
    match kind
    case LeaseBatch(owner) => (e: Envelope) => Leased(e, at, owner)
    case ExpireBatch(nonce) => (e: Envelope) => Unknown(e, at, nonce)
    case DiscardBatch(nonce) => (e: Envelope) => Disarmed(e, Discarded, e.email, nonce, at)
  }

  function RowEligible(kind: BatchKind, at: Time): Envelope -> bool {
    match kind
    case LeaseBatch(_) => (e: Envelope) => Claimable(e, at)
    case ExpireBatch(_) => (e: Envelope) => LeaseLost(e, at)
    case DiscardBatch(_) => (e: Envelope) => Exhausted(e, at)
  }

  function RowSteps(kind: BatchKind, picked: seq<Pk>, at: Time): seq<Step> {
    seq(|picked|, i requires 0 <= i < |picked| => RowStep(kind, picked[i], at))
  }

  /** What a locked batch writes is what its rows' own steps write one after another. */
  lemma {:induction false} BatchIsARun(w: World, kind: BatchKind, picked: seq<Pk>, at: Time)
    requires Indexed(w) && at <= w.clock
    requires Batch(w.store.rows, picked, |picked|, RowEligible(kind, at))
    ensures Run(w, RowSteps(kind, picked, at))
    ensures End(w, RowSteps(kind, picked, at)).store == w.store.(rows := Updated(w.store.rows, picked, RowUpdate(kind, at)))
    decreases |picked|
  {
    var steps := RowSteps(kind, picked, at);
    if picked == [] {
      assert Updated(w.store.rows, picked, RowUpdate(kind, at)) == w.store.rows;
    } else {
      var w' := BatchHead(w, kind, picked, at);
      var rest := picked[1..];
      assert steps[1..] == RowSteps(kind, rest, at);
      BatchIsARun(w', kind, rest, at);
      assert Updated(w'.store.rows, rest, RowUpdate(kind, at)) == Updated(w.store.rows, picked, RowUpdate(kind, at));
    }
  }

  lemma BatchHead(w: World, kind: BatchKind, picked: seq<Pk>, at: Time) returns (w': World)
    requires Indexed(w) && at <= w.clock && picked != []
    requires Batch(w.store.rows, picked, |picked|, RowEligible(kind, at))
    ensures var step := RowSteps(kind, picked, at)[0];
            Enabled(w, step) && w' == Next(w, step)
    ensures Indexed(w') && w'.clock == w.clock
    ensures w'.store == w.store.(rows := w.store.rows[picked[0] := RowUpdate(kind, at)(w.store.rows[picked[0]])])
    ensures Batch(w'.store.rows, picked[1..], |picked| - 1, RowEligible(kind, at))
  {
    var step := RowSteps(kind, picked, at)[0];
    w' := Next(w, step);
    RowEffect(w, step);
  }

  lemma {:induction false} RunAppend(w: World, steps: seq<Step>, last: Step)
    requires Run(w, steps) && Enabled(End(w, steps), last)
    ensures Run(w, steps + [last]) && End(w, steps + [last]) == Next(End(w, steps), last)
    decreases |steps|
  {
    if steps == [] {
      assert steps + [last] == [last];
    } else {
      RunAppend(Next(w, steps[0]), steps[1..], last);
      assert (steps + [last])[1..] == steps[1..] + [last];
    }
  }
}
