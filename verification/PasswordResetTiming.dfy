/** When recovery mails of one row are spaced.

    Requests are a cooldown apart, mails answer requests, and a mail may be late. So mails are
    spaced by the cooldown less their lateness, no better than that, and therefore always by the
    cooldown exactly when no mail is late at all. */
module PasswordResetTiming {
  import opened Common
  import opened PasswordReset
  import opened PasswordResetRuns

  // ---- Every mail answers a request of its own -----------------------------------------------

  /** Every committed code answers an accepted request of its own. */
  ghost predicate AnswersInv(l: Ledger) {
    && l.workers.Keys <= l.answers.Keys && l.prepared <= l.answers.Keys
    && (forall g | g in l.answers :: l.answers[g] < |l.accepted|)
    && (forall g, h | g in l.prepared && h in l.prepared && l.answers[g] == l.answers[h] :: g == h)
  }

  /** A row that is queued or leased has not answered its last request yet. */
  ghost predicate OpenInv(l: Ledger, e: Envelope)
    requires AnswersInv(l)
  {
    && (e.status.Pending? || e.status.Claimed? ==> forall g | g in l.prepared :: l.answers[g] < |l.accepted| - 1)
    && (e.status.Claimed? ==> e.generation in l.answers && l.answers[e.generation] == |l.accepted| - 1)
  }

  predicate MailInv(l: Ledger, mail: Mail, clock: Time) {
    && mail.generation in l.mailed && mail.generation in l.prepared
    && mail.generation in l.answers && l.answers[mail.generation] == mail.request
    && mail.request < |l.accepted| && l.accepted[mail.request] <= mail.at <= clock
  }

  /** The mails left in order, each no earlier than the request it answers. */
  ghost predicate SentInv(l: Ledger, clock: Time) {
    && (forall k | 0 <= k < |l.sent| :: MailInv(l, l.sent[k], clock))
    && (forall k, m | 0 <= k < m < |l.sent| ::
          l.sent[k].at <= l.sent[m].at && l.sent[k].generation != l.sent[m].generation)
  }

  ghost predicate AnswerCell(l: Ledger, row: Option<Envelope>, clock: Time) {
    AnswersInv(l) && SentInv(l, clock) && (row.Some? ==> OpenInv(l, row.value))
  }

  ghost predicate Timed(w: World) {
    forall pk | pk in w.log :: AnswerCell(w.log[pk], w.Row(pk), w.clock)
  }

  lemma CellsAt(w: World, pk: Pk)
    requires Inv(w) && Timed(w) && pk in w.log
    ensures AnswerCell(w.log[pk], w.Row(pk), w.clock) && CellInv(w.log[pk], w.Row(pk), w.clock)
  {}

  lemma IsIndexed(w: World)
    requires Inv(w)
    ensures Indexed(w)
  {}

  lemma TimedLocal(w: World, w': World, pk: Pk, l: Ledger, row: Option<Envelope>)
    requires Timed(w) && Touched(w, w', pk, l, row) && AnswerCell(l, row, w.clock)
    ensures Timed(w')
  {
    forall other | other in w'.log ensures AnswerCell(w'.log[other], w'.Row(other), w'.clock) {
      if other != pk { assert AnswerCell(w.log[other], w.Row(other), w.clock); }
    }
  }

  lemma ReopenAnswers(l: Ledger, e: Envelope, email: string, at: Time, nonce: string, clock: Time)
    requires AnswerCell(l, Some(e), clock)
    ensures AnswerCell(Reopening(l, at), Some(Reentered(e, email, at, nonce)), clock)
  {
    var l' := Reopening(l, at);
    forall k | 0 <= k < |l'.sent| ensures MailInv(l', l'.sent[k], clock) { assert MailInv(l, l.sent[k], clock); }
  }

  ghost predicate UpTo(l: Ledger, generation: nat) {
    l.accepted != [] && forall g | g in l.prepared :: g <= generation
  }

  lemma ClaimAnswers(l: Ledger, e: Envelope, at: Time, owner: string, clock: Time)
    requires AnswerCell(l, Some(e), clock) && Claimable(e, at)
    requires UpTo(l, e.generation)
    ensures AnswerCell(Claiming(l, e.generation + 1), Some(Leased(e, at, owner)), clock)
  {
    var l' := Claiming(l, e.generation + 1);
    forall k | 0 <= k < |l'.sent| ensures MailInv(l', l'.sent[k], clock) { assert MailInv(l, l.sent[k], clock); }
  }

  lemma OldGenerations(w: World, pk: Pk)
    requires Inv(w) && pk in w.log && pk in w.store.rows
    ensures UpTo(w.log[pk], w.store.rows[pk].generation)
  {
    assert CellInv(w.log[pk], w.Row(pk), w.clock);
    assert forall g | g in w.log[pk].prepared :: g in w.log[pk].workers;
  }

  lemma ArmAnswers(l: Ledger, e: Envelope, code: string, uid: UserId, hash: string, at: Time, clock: Time)
    requires AnswerCell(l, Some(e), clock) && e.status == Claimed
    ensures AnswerCell(Arming(l, e.generation, code, uid, hash, at), Some(Armed(e, uid, hash, code, at)), clock)
  {
    var l' := Arming(l, e.generation, code, uid, hash, at);
    forall k | 0 <= k < |l'.sent| ensures MailInv(l', l'.sent[k], clock) { assert MailInv(l, l.sent[k], clock); }
  }

  lemma AcceptedBy(l: Ledger, i: nat, clock: Time)
    requires CountInv(l, clock) && i < |l.accepted|
    ensures l.accepted[i] <= clock
  {
    var last := |l.accepted| - 1;
    if i < last { assert l.accepted[i] + RESEND_COOLDOWN * (last - i) <= l.accepted[last]; }
  }

  lemma MailAnswers(l: Ledger, row: Option<Envelope>, g: nat, delivered: bool, clock: Time)
    requires AnswerCell(l, row, clock) && g in l.workers && l.workers[g].Prepared?
    requires g in l.prepared && g !in l.mailed && l.accepted[l.answers[g]] <= clock
    ensures AnswerCell(Mailing(l, g, delivered, clock), row, clock)
  {
    var l' := Mailing(l, g, delivered, clock);
    var n := |l.sent|;
    forall k | 0 <= k < |l'.sent|
      ensures MailInv(l', l'.sent[k], clock) && (k < n ==> l'.sent[k].at <= clock && l'.sent[k].generation != g)
    {
      if k < n { assert MailInv(l, l.sent[k], clock); }
    }
  }

  lemma ReadyToMail(l: Ledger, g: nat, clock: Time)
    requires LedgerInv(l, clock) && AnswersInv(l) && g in l.workers && l.workers[g].Prepared?
    ensures g in l.prepared && g !in l.mailed && l.accepted[l.answers[g]] <= clock
  {
    assert WorkerInv(l, g, l.workers[g]);
    AcceptedBy(l, l.answers[g], clock);
  }

  /** Nothing about requests, claims and mails was recorded, and the row was not queued or leased. */
  ghost predicate Quiet(l: Ledger, l': Ledger, row: Option<Envelope>, row': Option<Envelope>) {
    && l' == l.(workers := l'.workers, confirms := l'.confirms, consumed := l'.consumed) && l'.workers.Keys == l.workers.Keys
    && (row'.Some? ==>
          && row.Some?
          && (row'.value.status.Pending? || row'.value.status.Claimed? ==>
                row'.value.status == row.value.status && row'.value.generation == row.value.generation))
  }

  lemma QuietAnswers(l: Ledger, l': Ledger, row: Option<Envelope>, row': Option<Envelope>, clock: Time, clock': Time)
    requires AnswerCell(l, row, clock) && Quiet(l, l', row, row') && clock <= clock'
    ensures AnswerCell(l', row', clock')
  {
    forall k | 0 <= k < |l'.sent| ensures MailInv(l', l'.sent[k], clock') { assert MailInv(l, l.sent[k], clock); }
  }

  lemma RequestTimed(w: World, step: Step)
    requires Indexed(w) && Timed(w) && step.Request? && Enabled(w, step)
    ensures Timed(Next(w, step))
  {
    var outcome := RequestOutcomeFor(w.store, step.raw, step.at);
    if outcome == Resent {
      var pk := ResendEffect(w, step);
      var email := NormalizeEmail(step.raw).value;
      ReopenAnswers(w.log[pk], w.store.rows[pk], email, step.at, step.nonce, w.clock);
      TimedLocal(w, Next(w, step), pk, Reopening(w.log[pk], step.at), Some(Reentered(w.store.rows[pk], email, step.at, step.nonce)));
    } else if outcome == Opened {
      OpenTimed(w, Next(w, step), Opening(step.at), Created(NormalizeEmail(step.raw).value, step.at, step.nonce));
    } else {
      assert Next(w, step) == w;
    }
  }

  lemma OpenTimed(w: World, w': World, l: Ledger, e: Envelope)
    requires Indexed(w) && Timed(w) && w'.clock == w.clock && AnswerCell(l, Some(e), w.clock)
    requires w'.log == w.log[w.nextPk := l] && w'.store.rows == w.store.rows[w.nextPk := e]
    ensures Timed(w')
  {
    forall pk | pk in w'.log ensures AnswerCell(w'.log[pk], w'.Row(pk), w'.clock) {
      if pk != w.nextPk { assert w'.Row(pk) == w.Row(pk) && AnswerCell(w.log[pk], w.Row(pk), w.clock); }
    }
  }

  /** A worker's transaction that commits no code and mails nothing is quiet. */
  lemma WorkerIsQuiet(w: World, step: Step)
    requires (step.Finalize? || step.Prepare?) && Enabled(w, step)
    requires step.Prepare? ==> !PrepareOutcomeFor(w.store, step.ticket.pk, step.ticket.generation, step.mailOn, step.code).Attempt?
    ensures Quiet(w.log[step.ticket.pk], Next(w, step).log[step.ticket.pk], w.Row(step.ticket.pk), WorkerRow(w, step))
  {}

  /** Committing a code arms the claimed row it was claimed for. */
  lemma AttemptArms(w: World, step: Step)
    requires step.Prepare? && Enabled(w, step)
    requires PrepareOutcomeFor(w.store, step.ticket.pk, step.ticket.generation, step.mailOn, step.code).Attempt?
    ensures w.Row(step.ticket.pk).Some?
    ensures var e := w.Row(step.ticket.pk).value;
            && e.generation == step.ticket.generation && e.status == Claimed
            && exists uid, hash ::
                 && Next(w, step).log[step.ticket.pk] == Arming(w.log[step.ticket.pk], e.generation, step.code, uid, hash, step.at)
                 && WorkerRow(w, step) == Some(Armed(e, uid, hash, step.code, step.at))
  {
    var e := w.store.rows[step.ticket.pk];
    var uid := FindUser(w.store.users, e.email).value;
    assert WorkerRow(w, step) == Some(Armed(e, uid, w.store.users[uid].passwordHash, step.code, step.at));
  }

  lemma WorkerTimed(w: World, step: Step)
    requires Inv(w) && Timed(w) && (step.Prepare? || step.Send? || step.Finalize?) && Enabled(w, step)
    ensures Timed(Next(w, step))
  {
    var t := step.ticket;
    CellsAt(w, t.pk);
    IsIndexed(w);
    WorkerCell(w, step);
    WorkerEffect(w, step);
    TimedLocal(w, Next(w, step), t.pk, Next(w, step).log[t.pk], WorkerRow(w, step));
  }

  lemma WorkerCell(w: World, step: Step)
    requires (step.Prepare? || step.Send? || step.Finalize?) && Enabled(w, step)
    requires AnswerCell(w.log[step.ticket.pk], w.Row(step.ticket.pk), w.clock)
    requires LedgerInv(w.log[step.ticket.pk], w.clock)
    ensures AnswerCell(Next(w, step).log[step.ticket.pk], WorkerRow(w, step), w.clock)
  {
    var t := step.ticket;
    var l, row := w.log[t.pk], w.Row(t.pk);
    if step.Send? {
      ReadyToMail(l, t.generation, w.clock);
      MailAnswers(l, row, t.generation, step.delivered, w.clock);
    } else if step.Prepare? && PrepareOutcomeFor(w.store, t.pk, t.generation, step.mailOn, step.code).Attempt? {
      AttemptArms(w, step);
      var uid, hash :| Next(w, step).log[t.pk] == Arming(l, t.generation, step.code, uid, hash, step.at)
                       && WorkerRow(w, step) == Some(Armed(row.value, uid, hash, step.code, step.at));
      ArmAnswers(l, row.value, step.code, uid, hash, step.at, w.clock);
    } else {
      WorkerIsQuiet(w, step);
      QuietAnswers(l, Next(w, step).log[t.pk], row, WorkerRow(w, step), w.clock, w.clock);
    }
  }

  lemma ClaimEffect(w: World, step: Step)
    requires Indexed(w) && step.ClaimRow? && Enabled(w, step)
    ensures var l, e := w.log[step.pk], w.store.rows[step.pk];
            Touched(w, Next(w, step), step.pk, Claiming(l, e.generation + 1), Some(Leased(e, step.at, step.owner)))
  {
    RowEffect(w, step);
  }

  lemma ClaimTimed(w: World, step: Step)
    requires Indexed(w) && Timed(w) && step.ClaimRow? && Enabled(w, step)
    requires UpTo(w.log[step.pk], w.store.rows[step.pk].generation)
    requires AnswerCell(w.log[step.pk], Some(w.store.rows[step.pk]), w.clock)
    ensures Timed(Next(w, step))
  {
    ClaimEffect(w, step);
    var l, e := w.log[step.pk], w.store.rows[step.pk];
    ClaimAnswers(l, e, step.at, step.owner, w.clock);
    TimedLocal(w, Next(w, step), step.pk, Claiming(l, e.generation + 1), Some(Leased(e, step.at, step.owner)));
  }

  lemma SweepTimed(w: World, step: Step)
    requires Indexed(w) && Timed(w) && (step.Expire? || step.Discard?) && Enabled(w, step) && step.pk in w.log
    ensures Timed(Next(w, step))
  {
    RowEffect(w, step);
    var l, e := w.log[step.pk], w.store.rows[step.pk];
    var e' := if step.Expire? then Unknown(e, step.at, step.nonce) else Disarmed(e, Discarded, e.email, step.nonce, step.at);
    QuietAnswers(l, l, w.Row(step.pk), Some(e'), w.clock, w.clock);
    TimedLocal(w, Next(w, step), step.pk, l, Some(e'));
  }

  lemma ConfirmTimed(w: World, step: Step)
    requires Indexed(w) && Timed(w) && step.Confirm? && Enabled(w, step)
    ensures Timed(Next(w, step))
  {
    var found := RowFor(w, step.raw);
    if found.Some? {
      var pk := found.value;
      ConfirmEffect(w, step);
      var l, e := w.log[pk], w.store.rows[pk];
      var e' := ConfirmedRow(w.store.users, e, NormalizeEmail(step.raw).value, step.code, step.newHash, step.at, step.nonce);
      var outcome := ConfirmOutcomeFor(w.store, step.raw, step.code, step.newHash, step.at);
      QuietAnswers(l, Confirming(l, e.generation, outcome.Confirmed?), Some(e), Some(e'), w.clock, w.clock);
      TimedLocal(w, Next(w, step), pk, Confirming(l, e.generation, outcome.Confirmed?), Some(e'));
    } else {
      assert Next(w, step) == w;
    }
  }

  lemma StepTimed(w: World, step: Step)
    requires Inv(w) && Timed(w) && Enabled(w, step)
    ensures Timed(Next(w, step))
  {
    IsIndexed(w);
    match step
    case Request(_, _, _) => RequestTimed(w, step);
    case ClaimRow(pk, _, _) =>
      OldGenerations(w, pk);
      CellsAt(w, pk);
      ClaimTimed(w, step);
    case Expire(_, _, _) => SweepTimed(w, step);
    case Discard(_, _, _) => SweepTimed(w, step);
    case Confirm(_, _, _, _, _) => ConfirmTimed(w, step);
    case Purge(_) => RestTimed(w, step);
    case EditUsers(_) => RestTimed(w, step);
    case Tick(_) => RestTimed(w, step);
    case _ => WorkerTimed(w, step);
  }

  lemma RestTimed(w: World, step: Step)
    requires Timed(w) && Enabled(w, step) && (step.Purge? || step.EditUsers? || step.Tick?)
    ensures Timed(Next(w, step))
  {
    var w' := Next(w, step);
    forall pk | pk in w'.log ensures AnswerCell(w'.log[pk], w'.Row(pk), w'.clock) {
      assert AnswerCell(w.log[pk], w.Row(pk), w.clock);
      QuietAnswers(w.log[pk], w'.log[pk], w.Row(pk), w'.Row(pk), w.clock, w'.clock);
    }
  }

  lemma {:induction false} RunTimed(w: World, steps: seq<Step>)
    requires Inv(w) && Timed(w) && Run(w, steps)
    ensures Inv(End(w, steps)) && Timed(End(w, steps))
    decreases |steps|
  {
    if steps != [] {
      StepKeeps(w, steps[0]);
      StepTimed(w, steps[0]);
      RunTimed(Next(w, steps[0]), steps[1..]);
    }
  }

  // ---- Spacing ---------------------------------------------------------------------------------

  /** No mail left later than this after the request it answers. */
  ghost predicate Within(l: Ledger, lateness: int) {
    forall k | 0 <= k < |l.sent| :: l.sent[k].request < |l.accepted| && l.sent[k].at <= l.accepted[l.sent[k].request] + lateness
  }

  /** Any two mails are at least this far apart for each mail between them. */
  ghost predicate Apart(l: Ledger, gap: int) {
    forall k, m | 0 <= k < m < |l.sent| :: l.sent[k].at + gap * (m - k) <= l.sent[m].at
  }

  /** Over every run: no two mails answer the same request, none precedes its request, and if each
      leaves within the given lateness, the mails answering requests i < j are the cooldown times
      j - i apart, less that lateness. */
  lemma SpacedUpToLateness(users: map<UserId, User>, clock: Time, steps: seq<Step>, pk: Pk, lateness: int, k: nat, m: nat)
    requires Run(Start(users, clock), steps) && pk in End(Start(users, clock), steps).log
    requires var l := End(Start(users, clock), steps).log[pk]; k < |l.sent| && m < |l.sent| && k != m
    ensures var l := End(Start(users, clock), steps).log[pk];
            var i, j := l.sent[k].request, l.sent[m].request;
            && i != j && i < |l.accepted| && l.accepted[i] <= l.sent[k].at
            && (Within(l, lateness) && i < j ==> l.sent[k].at + RESEND_COOLDOWN * (j - i) - lateness <= l.sent[m].at)
  {
    RunTimed(Start(users, clock), steps);
    var w := End(Start(users, clock), steps);
    CellsAt(w, pk);
    TwoMails(w.log[pk], w.clock, lateness, k, m);
  }

  lemma TwoMails(l: Ledger, clock: Time, lateness: int, k: nat, m: nat)
    requires AnswersInv(l) && SentInv(l, clock) && CountInv(l, clock)
    requires k < |l.sent| && m < |l.sent| && k != m
    ensures var i, j := l.sent[k].request, l.sent[m].request;
            && i != j && i < |l.accepted| && l.accepted[i] <= l.sent[k].at
            && (Within(l, lateness) && i < j ==> l.sent[k].at + RESEND_COOLDOWN * (j - i) - lateness <= l.sent[m].at)
  {
    assert MailInv(l, l.sent[k], clock) && MailInv(l, l.sent[m], clock);
    var i, j := l.sent[k].request, l.sent[m].request;
    assert l.sent[k].generation != l.sent[m].generation;
    if i < j { assert l.accepted[i] + RESEND_COOLDOWN * (j - i) <= l.accepted[j]; }
  }

  /** Mails that leave with their requests are a cooldown apart. */
  lemma PromptMailsApart(l: Ledger, clock: Time)
    requires AnswersInv(l) && SentInv(l, clock) && CountInv(l, clock) && Within(l, 0)
    ensures Apart(l, RESEND_COOLDOWN)
  {
    forall k: nat, m: nat | k < m < |l.sent| ensures l.sent[k].at + RESEND_COOLDOWN * (m - k) <= l.sent[m].at {
      PromptPair(l, clock, k, m);
    }
  }

  lemma {:induction false} PromptPair(l: Ledger, clock: Time, k: nat, m: nat)
    requires AnswersInv(l) && SentInv(l, clock) && CountInv(l, clock) && Within(l, 0) && k < m < |l.sent|
    ensures l.sent[k].at + RESEND_COOLDOWN * (m - k) <= l.sent[m].at
    decreases m - k
  {
    TwoMails(l, clock, 0, m - 1, m);
    TwoMails(l, clock, 0, m, m - 1);
    if k < m - 1 { PromptPair(l, clock, k, m - 1); }
  }

  /** Every run whose mails keep to the lateness has its mails a cooldown apart. */
  ghost predicate AlwaysApart(lateness: int) {
    forall users, clock, steps, pk |
        Run(Start(users, clock), steps) && pk in End(Start(users, clock), steps).log
        && Within(End(Start(users, clock), steps).log[pk], lateness) ::
      Apart(End(Start(users, clock), steps).log[pk], RESEND_COOLDOWN)
  }

  /** Mails are always a cooldown apart exactly when none is ever late. */
  lemma ApartExactlyWhenPrompt(lateness: nat)
    ensures AlwaysApart(lateness) <==> lateness == 0
  {
    if lateness == 0 {
      forall users, clock, steps, pk |
          Run(Start(users, clock), steps) && pk in End(Start(users, clock), steps).log
          && Within(End(Start(users, clock), steps).log[pk], lateness)
        ensures Apart(End(Start(users, clock), steps).log[pk], RESEND_COOLDOWN)
      {
        RunTimed(Start(users, clock), steps);
        var w := End(Start(users, clock), steps);
        CellsAt(w, pk);
        PromptMailsApart(w.log[pk], w.clock);
      }
    } else {
      var w := LatenessIsTheGap(lateness);
      var steps :| Run(Start(map[0 := ALICE], 0), steps) && End(Start(map[0 := ALICE], 0), steps) == w;
      assert !Apart(w.log[0], RESEND_COOLDOWN) by {
        assert w.log[0].sent[0].at + RESEND_COOLDOWN * (1 - 0) > w.log[0].sent[1].at;
      }
    }
  }

  // ---- Runs that reach the bound ---------------------------------------------------------------

  const ALICE: User := User("a@b", "old", false, false, true, true, false, false)

  lemma AliceFound(rows: map<Pk, Envelope>)
    ensures NormalizeEmail("a@b") == Some("a@b")
    ensures FindUser(map[0 := ALICE], "a@b") == Some(0)
    ensures rows.Keys == {0} && rows[0].email == "a@b" ==> FindRow(rows, "a@b") == Some(0)
    ensures rows == map[] ==> FindRow(rows, "a@b") == None
  {
    assert 0 in UsersNamed(map[0 := ALICE], "a@b");
    if rows.Keys == {0} && rows[0].email == "a@b" {
      assert 0 in RowsNamed(rows, "a@b");
    }
    assert Strip("a@b") == "a@b";
    assert Lower("a@b") == "a@b";
  }

  ghost predicate Reachable(from: World, w: World) {
    exists steps :: Run(from, steps) && End(from, steps) == w
  }

  lemma Extend(from: World, w: World, step: Step)
    requires Reachable(from, w) && Enabled(w, step)
    ensures Reachable(from, Next(w, step))
  {
    var steps :| Run(from, steps) && End(from, steps) == w;
    RunAppend(from, steps, step);
  }

  /** Alice's only row and everything its ledger says about requests and mails. */
  ghost predicate Shape(from: World, w: World, status: Status, generation: nat, clock: Time, l: Ledger) {
    && Reachable(from, w)
    && w.store.users == map[0 := ALICE] && w.clock == clock
    && w.store.rows.Keys == {0} && w.store.rows[0].status == status && w.store.rows[0].generation == generation
    && w.store.rows[0].email == "a@b" && l.accepted != [] && w.store.rows[0].requestedAt == l.accepted[|l.accepted| - 1]
    && (status == Delivering ==>
          w.store.rows[0].claimExpiresAt.Some? && w.store.rows[0].claimExpiresAt.value <= w.store.rows[0].requestedAt + CLAIM_LEASE)
    && w.log.Keys == {0}
    && w.log[0].workers == l.workers && w.log[0].accepted == l.accepted && w.log[0].answers == l.answers && w.log[0].sent == l.sent
  }

  lemma Open(from: World) returns (w: World)
    requires from == Start(map[0 := ALICE], 0)
    ensures Shape(from, w, Pending, 1, 0, Opening(0))
  {
    assert Run(from, []) && End(from, []) == from;
    AliceFound(map[]);
    Extend(from, from, Request("a@b", 0, ""));
    w := Next(from, Request("a@b", 0, ""));
  }

  lemma Lease(from: World, w: World, g: nat, at: Time, l: Ledger) returns (w': World)
    requires Shape(from, w, Pending, g, at, l)
    ensures Shape(from, w', Claimed, g + 1, at, Claiming(l, g + 1))
  {
    var claim := ClaimRow(0, at, "");
    Extend(from, w, claim);
    w' := Next(w, claim);
    assert w'.store.rows[0] == Leased(w.store.rows[0], at, "");
  }

  lemma Arm(from: World, w: World, g: nat, at: Time, l: Ledger, code: string) returns (w': World)
    requires Shape(from, w, Claimed, g, at, l) && g in l.workers && l.workers[g].Held?
    requires l.accepted[|l.accepted| - 1] == at
    ensures Shape(from, w', Delivering, g, at, Moved(l, g, Prepared(code)))
  {
    var prepare := Prepare(Ticket(0, g), at, true, code, "");
    AliceFound(w.store.rows);
    Extend(from, w, prepare);
    w' := Next(w, prepare);
  }

  lemma Wait(from: World, w: World, status: Status, g: nat, at: Time, later: Time, l: Ledger) returns (w': World)
    requires Shape(from, w, status, g, at, l) && at <= later
    ensures Shape(from, w', status, g, later, l)
  {
    Extend(from, w, Tick(later));
    w' := Next(w, Tick(later));
  }

  /** The mail leaves, whatever became of the row meanwhile. */
  lemma Post(from: World, w: World, status: Status, g: nat, at: Time, l: Ledger, h: nat) returns (w': World)
    requires Shape(from, w, status, g, at, l) && h in l.workers && l.workers[h].Prepared?
    ensures Shape(from, w', status, g, at, l.(workers := Mailing(l, h, true, at).workers, sent := Mailing(l, h, true, at).sent))
  {
    Extend(from, w, Send(Ticket(0, h), true));
    w' := Next(w, Send(Ticket(0, h), true));
  }

  lemma Deliver(from: World, w: World, g: nat, at: Time, l: Ledger) returns (w': World)
    requires Shape(from, w, Delivering, g, at, l) && g in l.workers && l.workers[g] == Sent(true)
    ensures Shape(from, w', Issued, g, at, Moved(l, g, Done(true)))
  {
    var finish := Finalize(Ticket(0, g), "a@b", at, "");
    Extend(from, w, finish);
    w' := Next(w, finish);
  }

  lemma Stall(from: World, w: World, g: nat, l: Ledger) returns (w': World)
    requires Shape(from, w, Delivering, g, 0, l) && l.accepted == [0]
    ensures Shape(from, w', DeliveryUnknown, g + 1, 300, l)
  {
    w' := Wait(from, w, Delivering, g, 0, 300, l);
    Extend(from, w', Expire(0, 300, ""));
    w' := Next(w', Expire(0, 300, ""));
  }

  lemma Resend(from: World, w: World, status: Status, g: nat, at: Time, l: Ledger) returns (w': World)
    requires Shape(from, w, status, g, at, l) && Reentrant(status) && l.accepted[|l.accepted| - 1] + RESEND_COOLDOWN <= at
    ensures Shape(from, w', Pending, g + 1, at, Reopening(l, at))
  {
    AliceFound(w.store.rows);
    Extend(from, w, Request("a@b", at, ""));
    w' := Next(w, Request("a@b", at, ""));
  }

  /** The first request's mail leaves this much later, the next one at once: a run without any
      crash, expiry or second worker on a request. */
  lemma LateThenPrompt(late: nat) returns (w: World, l: Ledger)
    requires late <= RESEND_COOLDOWN
    ensures Reachable(Start(map[0 := ALICE], 0), w) && 0 in w.log
    ensures w.log[0].accepted == [0, RESEND_COOLDOWN]
    ensures w.log[0].sent == [Mail(2, 0, late), Mail(4, 1, RESEND_COOLDOWN)]
  {
    var from := Start(map[0 := ALICE], 0);
    w, l := FirstMail(from, late);
    w := Deliver(from, w, 2, late, l);
    l := Moved(l, 2, Done(true));
    w := Wait(from, w, Issued, 2, late, RESEND_COOLDOWN, l);
    w, l := SecondMail(from, w, l);
  }

  lemma SecondMail(from: World, first: World, before: Ledger) returns (w: World, l: Ledger)
    requires Shape(from, first, Issued, 2, RESEND_COOLDOWN, before) && before.accepted == [0]
    ensures Reachable(from, w) && 0 in w.log && w.log[0].accepted == [0, RESEND_COOLDOWN]
    ensures w.log[0].sent == before.sent + [Mail(4, 1, RESEND_COOLDOWN)]
  {
    w, l := SecondLease(from, first, before);
    w := Arm(from, w, 4, RESEND_COOLDOWN, l, "2");
    l := Moved(l, 4, Prepared("2"));
    w := Post(from, w, Delivering, 4, RESEND_COOLDOWN, l, 4);
  }

  lemma SecondLease(from: World, first: World, before: Ledger) returns (w: World, l: Ledger)
    requires Shape(from, first, Issued, 2, RESEND_COOLDOWN, before) && before.accepted == [0]
    ensures l == Claiming(Reopening(before, RESEND_COOLDOWN), 4) && Shape(from, w, Claimed, 4, RESEND_COOLDOWN, l)
  {
    w := Resend(from, first, Issued, 2, RESEND_COOLDOWN, before);
    l := Reopening(before, RESEND_COOLDOWN);
    w := Lease(from, w, 3, RESEND_COOLDOWN, l);
    l := Claiming(l, 4);
  }

  lemma FirstArmed(from: World) returns (w: World, l: Ledger)
    requires from == Start(map[0 := ALICE], 0)
    ensures Shape(from, w, Delivering, 2, 0, l)
    ensures l.accepted == [0] && l.answers == map[2 := 0] && l.sent == [] && l.workers == map[2 := Prepared("1")]
  {
    w := Open(from);
    w := Lease(from, w, 1, 0, Opening(0));
    l := Claiming(Opening(0), 2);
    w := Arm(from, w, 2, 0, l, "1");
    l := Moved(l, 2, Prepared("1"));
  }

  lemma FirstMail(from: World, late: nat) returns (w: World, l: Ledger)
    requires from == Start(map[0 := ALICE], 0)
    ensures Shape(from, w, Delivering, 2, late, l)
    ensures l.accepted == [0] && l.answers == map[2 := 0] && l.sent == [Mail(2, 0, late)] && l.workers == map[2 := Sent(true)]
  {
    w, l := FirstArmed(from);
    w := Wait(from, w, Delivering, 2, 0, late, l);
    w := Post(from, w, Delivering, 2, late, l, 2);
    l := l.(workers := Mailing(l, 2, true, late).workers, sent := Mailing(l, 2, true, late).sent);
  }

  /** The bound is reached: for every lateness some run within it has two successive mails apart by
      no more than what the lateness leaves of the cooldown. */
  lemma LatenessIsTheGap(lateness: nat) returns (w: World)
    ensures Reachable(Start(map[0 := ALICE], 0), w) && 0 in w.log && |w.log[0].sent| == 2 && Within(w.log[0], lateness)
    ensures w.log[0].sent[1].at - w.log[0].sent[0].at == if lateness < RESEND_COOLDOWN then RESEND_COOLDOWN - lateness else 0
  {
    var l;
    w, l := LateThenPrompt(if lateness < RESEND_COOLDOWN then lateness else RESEND_COOLDOWN);
  }

  lemma TwoPrepared(from: World) returns (w: World)
    requires from == Start(map[0 := ALICE], 0)
    ensures Reachable(from, w) && 0 in w.log && w.log[0].sent == []
    ensures w.At(Ticket(0, 2)) && w.Worker(Ticket(0, 2)).Prepared?
    ensures w.At(Ticket(0, 5)) && w.Worker(Ticket(0, 5)).Prepared?
  {
    var l;
    w, l := FirstArmed(from);
    w := Stall(from, w, 2, l);
    w := Resend(from, w, DeliveryUnknown, 3, 300, l);
    l := Reopening(l, 300);
    w := Lease(from, w, 4, 300, l);
    l := Claiming(l, 5);
    w := Arm(from, w, 5, 300, l, "2");
  }

  /** Two workers' mails can also leave at one instant after a lease was swept. */
  lemma MailsMayCoincide() returns (w: World, w': World)
    ensures Reachable(Start(map[0 := ALICE], 0), w) && 0 in w.log && w.log[0].sent == []
    ensures var first, second := Send(Ticket(0, 2), true), Send(Ticket(0, 5), true);
            Enabled(w, first) && Enabled(Next(w, first), second) && w' == Next(Next(w, first), second)
    ensures w'.clock == w.clock && 0 in w'.log && |w'.log[0].sent| == 2
  {
    w := TwoPrepared(Start(map[0 := ALICE], 0));
    w' := Next(Next(w, Send(Ticket(0, 2), true)), Send(Ticket(0, 5), true));
  }
}
