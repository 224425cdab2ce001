/** The password-recovery envelope: one row per address that is at once queue entry, worker
    lease, fencing token and one-time-code challenge.

    Every transition of a row is a function on `Envelope`; the methods of `EnvelopeTable` are the
    services, each proved to apply exactly those functions to exactly the rows it locked.
    What the transitions guarantee together is proved in PasswordResetRuns. */
module PasswordReset {
  import opened Common

  type Time = int  // seconds
  type Pk = nat
  type UserId = nat

  const RESEND_COOLDOWN: Time := 60
  const MAX_ATTEMPTS: nat := 5
  const CHALLENGE_TTL: Time := 600
  const CLAIM_LEASE: Time := 300
  const RETENTION: Time := 30 * 24 * 3600
  const MAX_EMAIL: nat := 254

  datatype Status =
    | Pending | Claimed | Delivering | Issued | Consumed | Discarded | Undeliverable | DeliveryUnknown

  predicate Reentrant(status: Status) {
    status in {Issued, Consumed, Discarded, Undeliverable, DeliveryUnknown}
  }

  /** Ideal keyed digests: injective in everything that is hashed, separate per purpose. */
  datatype Digest = OtpDigest(email: string, secret: string) | MissingDigest(email: string)

  datatype Fingerprint = Blank | Credential(email: string, passwordHash: string)

  datatype User = User(email: string, passwordHash: string, mustChangePassword: bool, dumpStub: bool,
                       active: bool, accessActive: bool, walkIn: bool, anonymousRequester: bool)
  {
    /** An account that may recover its password. */
    predicate Recoverable() {
      !dumpStub && active && accessActive && !walkIn && !anonymousRequester
    }
  }

  datatype Envelope = Envelope(
    email: string,
    digest: Digest,
    live: bool,
    credential: Fingerprint,
    user: Option<UserId>,
    expiresAt: Option<Time>,
    consumedAt: Option<Time>,
    attempts: nat,
    status: Status,
    claimedAt: Option<Time>,
    claimOwner: string,
    claimExpiresAt: Option<Time>,
    generation: nat,
    requestedAt: Time,
    supersededAt: Option<Time>,
    terminalAt: Option<Time>)

  datatype EnvelopeClaim = EnvelopeClaim(envelopeId: Pk, generation: nat, email: string)

  function NormalizeEmail(raw: string): Option<string> {
    var normalized := Lower(Strip(raw));
    if normalized == "" || |normalized| > MAX_EMAIL then None else Some(normalized)
  }

  // ---- Transitions of one row -------------------------------------------------------------

  function Created(email: string, at: Time, nonce: string): Envelope {
    Envelope(email, OtpDigest(email, nonce), false, Blank, None, None, None, 0, Pending,
             None, "", None, 1, at, None, None)
  }

  function Reentered(e: Envelope, email: string, at: Time, nonce: string): Envelope {
    Envelope(email, OtpDigest(email, nonce), false, Blank, None, None, None, 0, Pending,
             None, "", None, e.generation + 1, at, None, None)
  }

  predicate Claimable(e: Envelope, at: Time) {
    || e.status == Pending
    || (e.status == Claimed && e.claimExpiresAt.Some? && e.claimExpiresAt.value <= at)
  }

  function Leased(e: Envelope, at: Time, owner: string): Envelope {
    e.(status := Claimed, claimedAt := Some(at), claimOwner := owner,
       claimExpiresAt := Some(at + CLAIM_LEASE), generation := e.generation + 1)
  }

  /** The secret is replaced by an unmailed one and everything that made the row redeemable goes. */
  function Disarmed(e: Envelope, status: Status, email: string, nonce: string, at: Time): Envelope {
    e.(status := status, digest := OtpDigest(email, nonce), live := false, credential := Blank,
       expiresAt := None, terminalAt := Some(at))
  }

  function Unleased(e: Envelope): Envelope {
    e.(claimedAt := None, claimOwner := "", claimExpiresAt := None)
  }

  function Armed(e: Envelope, uid: UserId, passwordHash: string, code: string, at: Time): Envelope {
    e.(user := Some(uid), digest := OtpDigest(e.email, code), live := true,
       credential := Credential(e.email, passwordHash), expiresAt := Some(at + CHALLENGE_TTL),
       consumedAt := None, attempts := 0, status := Delivering,
       claimExpiresAt := Some(at + CLAIM_LEASE), terminalAt := None, supersededAt := None)
  }

  predicate LeaseLost(e: Envelope, at: Time) {
    e.status == Delivering && e.claimExpiresAt.Some? && e.claimExpiresAt.value <= at
  }

  function Unknown(e: Envelope, at: Time, nonce: string): Envelope {
    Unleased(Disarmed(e, DeliveryUnknown, e.email, nonce, at)).(generation := e.generation + 1)
  }

  predicate Exhausted(e: Envelope, at: Time) {
    && e.status == Issued
    && ((e.expiresAt.Some? && e.expiresAt.value <= at) || e.attempts >= MAX_ATTEMPTS)
  }

  function Attempted(e: Envelope): Envelope {
    e.(attempts := if e.attempts + 1 <= MAX_ATTEMPTS then e.attempts + 1 else MAX_ATTEMPTS)
  }

  /** Possession of a live, delivered, unexpired code with attempts left before this one. */
  predicate StageOne(e: Envelope, email: string, code: string, at: Time) {
    && e.digest == OtpDigest(email, code)
    && e.live && e.status == Issued && e.consumedAt.None?
    && e.expiresAt.Some? && e.expiresAt.value > at
    && e.attempts < MAX_ATTEMPTS
  }

  predicate CredentialStateMatches(users: map<UserId, User>, e: Envelope, email: string) {
    && e.user.Some? && e.user.value in users
    && var user := users[e.user.value];
       && user.Recoverable()
       && NormalizeEmail(user.email) == Some(email)
       && e.credential == Credential(email, user.passwordHash)
  }

  function Spent(e: Envelope, email: string, at: Time, nonce: string): Envelope {
    e.(status := Consumed, consumedAt := Some(at), terminalAt := Some(at),
       digest := OtpDigest(email, nonce), live := false)
  }

  predicate Purgeable(e: Envelope, now: Time) {
    if e.terminalAt.Some? then e.terminalAt.value < now - RETENTION else e.requestedAt < now - RETENTION
  }

  // ---- Services as functions of the two tables ---------------------------------------------

  datatype Store = Store(rows: map<Pk, Envelope>, users: map<UserId, User>)

  /** Case-insensitive lookup of the row for an address. */
  function FindRow(rows: map<Pk, Envelope>, email: string): Option<Pk> {
    First(RowsNamed(rows, email))
  }

  function RowsNamed(rows: map<Pk, Envelope>, email: string): set<Pk> {
    set pk | pk in rows && Lower(rows[pk].email) == Lower(email)
  }

  function FindUser(users: map<UserId, User>, email: string): Option<UserId> {
    First(UsersNamed(users, email))
  }

  function UsersNamed(users: map<UserId, User>, email: string): set<UserId> {
    set u | u in users && Lower(users[u].email) == Lower(email)
  }

  datatype RequestOutcome = Opened | Resent | Unchanged | CoolingDown | BadAddress

  function RequestOutcomeFor(s: Store, raw: string, at: Time): RequestOutcome {
    match NormalizeEmail(raw)
    case None => BadAddress
    case Some(email) =>
      match FindRow(s.rows, email)
      case None => Opened
      case Some(pk) =>
        if !Reentrant(s.rows[pk].status) then Unchanged
        else if s.rows[pk].requestedAt > at - RESEND_COOLDOWN then CoolingDown
        else Resent
  }

  function Requested(s: Store, raw: string, at: Time, freshPk: Pk, nonce: string): Store {
    match NormalizeEmail(raw)
    case None => s
    case Some(email) =>
      match FindRow(s.rows, email)
      case None => s.(rows := s.rows[freshPk := Created(email, at, nonce)])
      case Some(pk) =>
        if RequestOutcomeFor(s, raw, at) == Resent
        then s.(rows := s.rows[pk := Reentered(s.rows[pk], email, at, nonce)])
        else s
  }

  function ClaimedStore(s: Store, pk: Pk, at: Time, owner: string): Store
    requires pk in s.rows
  {
    s.(rows := s.rows[pk := Leased(s.rows[pk], at, owner)])
  }

  datatype PrepareOutcome = Stale | Terminal(status: Status) | Attempt(recipient: string, code: string)

  function PrepareOutcomeFor(s: Store, pk: Pk, generation: nat, mailOn: bool, code: string): PrepareOutcome {
    if pk !in s.rows || s.rows[pk].generation != generation || s.rows[pk].status != Claimed then Stale
    else
      var found := FindUser(s.users, s.rows[pk].email);
      if found.None? || !s.users[found.value].Recoverable() then Terminal(Discarded)
      else if !mailOn then Terminal(Undeliverable)
      else Attempt(s.rows[pk].email, code)
  }

  function PreparedStore(s: Store, pk: Pk, generation: nat, at: Time, mailOn: bool, code: string, nonce: string): Store {
    match PrepareOutcomeFor(s, pk, generation, mailOn, code)
    case Stale => s
    case Terminal(status) =>
      s.(rows := s.rows[pk := Unleased(Disarmed(s.rows[pk], status, s.rows[pk].email, nonce, at)).(user := None)])
    case Attempt(_, _) =>
      var uid := FindUser(s.users, s.rows[pk].email).value;
      s.(rows := s.rows[pk := Armed(s.rows[pk], uid, s.users[uid].passwordHash, code, at)])
  }

  predicate Finalizable(s: Store, pk: Pk, generation: nat) {
    pk in s.rows && s.rows[pk].generation == generation && s.rows[pk].status == Delivering
  }

  function FinalizedStore(s: Store, claim: EnvelopeClaim, delivered: bool, at: Time, nonce: string): Store {
    var pk := claim.envelopeId;
    if !Finalizable(s, pk, claim.generation) then s
    else if delivered then s.(rows := s.rows[pk := Unleased(s.rows[pk]).(status := Issued)])
    else s.(rows := s.rows[pk := Unleased(Disarmed(s.rows[pk], Undeliverable, claim.email, nonce, at))])
  }

  function ExpiredStore(s: Store, pk: Pk, at: Time, nonce: string): Store
    requires pk in s.rows
  {
    s.(rows := s.rows[pk := Unknown(s.rows[pk], at, nonce)])
  }

  function DiscardedStore(s: Store, pk: Pk, at: Time, nonce: string): Store
    requires pk in s.rows
  {
    s.(rows := s.rows[pk := Disarmed(s.rows[pk], Discarded, s.rows[pk].email, nonce, at)])
  }

  datatype ConfirmOutcome = Confirmed(user: UserId) | Rejected | PasswordRefused | BadConfirmAddress

  /** `newHash` is None when the password policy refuses the candidate, else its stored form. */
  function ConfirmOutcomeFor(s: Store, raw: string, code: string, newHash: Option<string>, at: Time): ConfirmOutcome {
    match NormalizeEmail(raw)
    case None => BadConfirmAddress
    case Some(email) =>
      match FindRow(s.rows, email)
      case None => Rejected
      case Some(pk) =>
        if !StageOne(s.rows[pk], email, code, at) || !CredentialStateMatches(s.users, s.rows[pk], email)
        then Rejected
        else if newHash.None? then PasswordRefused
        else Confirmed(s.rows[pk].user.value)
  }

  function ConfirmedStore(s: Store, raw: string, code: string, newHash: Option<string>, at: Time, nonce: string): Store {
    match NormalizeEmail(raw)
    case None => s
    case Some(email) =>
      match FindRow(s.rows, email)
      case None => s
      case Some(pk) =>
        var e := s.rows[pk];
        var tried := Attempted(e);
        if !StageOne(e, email, code, at) then s.(rows := s.rows[pk := tried])
        else if !CredentialStateMatches(s.users, e, email) then
          s.(rows := s.rows[pk := Disarmed(tried, Discarded, e.email, nonce, at).(supersededAt := Some(at))])
        else if newHash.None? then s.(rows := s.rows[pk := tried])
        else
          var uid := e.user.value;
          Store(s.rows[pk := Spent(tried, email, at, nonce)],
                s.users[uid := s.users[uid].(passwordHash := newHash.value, mustChangePassword := false)])
  }

  // ---- Batches -----------------------------------------------------------------------------

  /** A batch a SKIP LOCKED query may return: distinct eligible rows, no more than the limit. */
  predicate Batch(rows: map<Pk, Envelope>, picked: seq<Pk>, limit: nat, eligible: Envelope -> bool) {
    && |picked| <= limit
    && (forall i | 0 <= i < |picked| :: picked[i] in rows && eligible(rows[picked[i]]))
    && (forall i, j | 0 <= i < j < |picked| :: picked[i] != picked[j])
  }

  /** `update` applied to exactly the picked rows. */
  function Updated(rows: map<Pk, Envelope>, picked: seq<Pk>, update: Envelope -> Envelope): map<Pk, Envelope> {
    map pk | pk in rows :: if pk in picked then update(rows[pk]) else rows[pk]
  }

  lemma UpdatedExtends(rows: map<Pk, Envelope>, picked: seq<Pk>, i: nat, update: Envelope -> Envelope)
    requires i < |picked| && picked[i] in rows && picked[i] !in picked[..i]
    ensures Updated(rows, picked[..i + 1], update)
         == Updated(rows, picked[..i], update)[picked[i] := update(rows[picked[i]])]
  {
    assert picked[..i + 1] == picked[..i] + [picked[i]];
  }

  datatype DrainOutcomes = DrainOutcomes(claimed: nat, issued: nat, terminal: nat, stale: nat)

  class EnvelopeTable {
    var rows: map<Pk, Envelope>
    var users: map<UserId, User>
    var nextPk: Pk

    ghost predicate Valid() reads this {
      forall pk | pk in rows :: pk < nextPk
    }

    function Contents(): Store reads this {
      Store(rows, users)
    }

    constructor (users: map<UserId, User>)
      ensures Valid() && Contents() == Store(map[], users)
    {
      rows, nextPk := map[], 0;
      this.users := users;
    }

    /** Upsert the queue entry for an address without looking at any account. */
    method RequestPasswordReset(raw: string, requestedAt: Time, nonce: string) returns (outcome: RequestOutcome)
      requires Valid()
      modifies this`rows, this`nextPk
      ensures Valid()
      ensures outcome == RequestOutcomeFor(old(Contents()), raw, requestedAt)
      ensures Contents() == Requested(old(Contents()), raw, requestedAt, old(nextPk), nonce)
      ensures nextPk == if outcome == Opened then old(nextPk) + 1 else old(nextPk)
    {
      var normalized := NormalizeEmail(raw);
      if normalized.None? {
        return BadAddress;
      }
      var email := normalized.value;
      var found := FindRow(rows, email);
      if found.None? {
        rows := rows[nextPk := Created(email, requestedAt, nonce)];
        nextPk := nextPk + 1;
        return Opened;
      }
      var envelope := rows[found.value];
      if !Reentrant(envelope.status) {
        return Unchanged;
      }
      if envelope.requestedAt > requestedAt - RESEND_COOLDOWN {
        return CoolingDown;
      }
      envelope := envelope.(email := email, digest := OtpDigest(email, nonce), live := false);
      envelope := envelope.(credential := Blank, user := None, expiresAt := None, consumedAt := None);
      envelope := envelope.(attempts := 0, status := Pending);
      envelope := envelope.(claimedAt := None, claimOwner := "", claimExpiresAt := None);
      envelope := envelope.(generation := envelope.generation + 1, requestedAt := requestedAt);
      envelope := envelope.(supersededAt := None, terminalAt := None);
      rows := rows[found.value := envelope];
      return Resent;
    }

    /** Lease the rows the locking query returned, giving each a generation of its own. */
    method ClaimPendingEnvelopes(picked: seq<Pk>, batchSize: nat, owner: string, claimedAt: Time)
      returns (claims: seq<EnvelopeClaim>)
      requires Valid()
      requires Batch(rows, picked, batchSize, e => Claimable(e, claimedAt))
      modifies this`rows
      ensures Valid()
      ensures rows == Updated(old(rows), picked, e => Leased(e, claimedAt, owner))
      ensures |claims| == |picked|
      ensures forall i | 0 <= i < |picked| ::
                claims[i] == EnvelopeClaim(picked[i], old(rows)[picked[i]].generation + 1, old(rows)[picked[i]].email)
    {
      claims := [];
      ghost var update := e => Leased(e, claimedAt, owner);
      assert rows == Updated(rows, picked[..0], update);
      for i := 0 to |picked|
        invariant rows == Updated(old(rows), picked[..i], update)
        invariant |claims| == i
        invariant forall j | 0 <= j < i ::
                    claims[j] == EnvelopeClaim(picked[j], old(rows)[picked[j]].generation + 1, old(rows)[picked[j]].email)
      {
        UpdatedExtends(old(rows), picked, i, update);
        var row := rows[picked[i]];
        row := row.(status := Claimed, claimedAt := Some(claimedAt), claimOwner := owner);
        row := row.(claimExpiresAt := Some(claimedAt + CLAIM_LEASE), generation := row.generation + 1);
        rows := rows[picked[i] := row];
        claims := claims + [EnvelopeClaim(picked[i], row.generation, row.email)];
      }
      assert picked[..|picked|] == picked;
    }

    /** Mint the code and commit its digest, provided the claim still owns the row. */
    method PrepareDelivery(claim: EnvelopeClaim, issuedAt: Time, mailOn: bool, code: string, nonce: string)
      returns (outcome: PrepareOutcome)
      requires Valid()
      modifies this`rows
      ensures Valid()
      ensures outcome == PrepareOutcomeFor(old(Contents()), claim.envelopeId, claim.generation, mailOn, code)
      ensures Contents() == PreparedStore(old(Contents()), claim.envelopeId, claim.generation, issuedAt, mailOn, code, nonce)
    {
      var pk := claim.envelopeId;
      if pk !in rows || rows[pk].generation != claim.generation || rows[pk].status != Claimed {
        return Stale;
      }
      var envelope := rows[pk];
      var found := FindUser(users, envelope.email);
      if found.None? || !users[found.value].Recoverable() {
        FinishClaimedTerminal(pk, Discarded, issuedAt, nonce);
        return Terminal(Discarded);
      }
      if !mailOn {
        FinishClaimedTerminal(pk, Undeliverable, issuedAt, nonce);
        return Terminal(Undeliverable);
      }
      rows := rows[pk := envelope.(
        user := found,
        digest := OtpDigest(envelope.email, code),
        live := true,
        credential := Credential(envelope.email, users[found.value].passwordHash),
        expiresAt := Some(issuedAt + CHALLENGE_TTL),
        consumedAt := None,
        attempts := 0,
        status := Delivering,
        claimExpiresAt := Some(issuedAt + CLAIM_LEASE),
        terminalAt := None,
        supersededAt := None)];
      return Attempt(envelope.email, code);
    }

    method FinishClaimedTerminal(pk: Pk, status: Status, now: Time, nonce: string)
      requires Valid() && pk in rows
      modifies this`rows
      ensures Valid()
      ensures rows == old(rows)[pk := Unleased(Disarmed(old(rows)[pk], status, old(rows)[pk].email, nonce, now)).(user := None)]
    {
      rows := rows[pk := rows[pk].(
        status := status, user := None, digest := OtpDigest(rows[pk].email, nonce), live := false,
        credential := Blank, expiresAt := None, terminalAt := Some(now),
        claimedAt := None, claimOwner := "", claimExpiresAt := None)];
    }

    /** Record the mail provider's answer unless the claim has been superseded. */
    method FinalizeDelivery(claim: EnvelopeClaim, delivered: bool, finishedAt: Time, nonce: string) returns (updated: bool)
      requires Valid()
      modifies this`rows
      ensures Valid()
      ensures updated == Finalizable(old(Contents()), claim.envelopeId, claim.generation)
      ensures Contents() == FinalizedStore(old(Contents()), claim, delivered, finishedAt, nonce)
    {
      var pk := claim.envelopeId;
      if pk !in rows || rows[pk].generation != claim.generation || rows[pk].status != Delivering {
        return false;
      }
      if delivered {
        rows := rows[pk := rows[pk].(status := Issued, claimedAt := None, claimOwner := "", claimExpiresAt := None)];
      } else {
        rows := rows[pk := rows[pk].(
          status := Undeliverable, digest := OtpDigest(claim.email, nonce), live := false,
          credential := Blank, expiresAt := None, terminalAt := Some(finishedAt),
          claimedAt := None, claimOwner := "", claimExpiresAt := None)];
      }
      return true;
    }

    /** Lost leases become delivery-unknown, and their generation moves in the same write. */
    method ExpireDeliveryLeases(picked: seq<Pk>, batchSize: nat, expiredAt: Time, nonce: string) returns (changed: nat)
      requires Valid()
      requires Batch(rows, picked, batchSize, e => LeaseLost(e, expiredAt))
      modifies this`rows
      ensures Valid()
      ensures rows == Updated(old(rows), picked, e => Unknown(e, expiredAt, nonce))
      ensures changed == |picked|
    {
      changed := 0;
      ghost var update := e => Unknown(e, expiredAt, nonce);
      assert rows == Updated(rows, picked[..0], update);
      for i := 0 to |picked|
        invariant rows == Updated(old(rows), picked[..i], update)
        invariant changed == i
      {
        UpdatedExtends(old(rows), picked, i, update);
        var row := rows[picked[i]];
        rows := rows[picked[i] := row.(
          status := DeliveryUnknown, digest := OtpDigest(row.email, nonce), live := false,
          credential := Blank, expiresAt := None, terminalAt := Some(expiredAt),
          claimedAt := None, claimOwner := "", claimExpiresAt := None, generation := row.generation + 1)];
        changed := changed + 1;
      }
      assert picked[..|picked|] == picked;
    }

    /** Expired or attempt-exhausted challenges become terminal off the request path. */
    method DiscardExpiredIssued(picked: seq<Pk>, batchSize: nat, expiredAt: Time, nonce: string) returns (changed: nat)
      requires Valid()
      requires Batch(rows, picked, batchSize, e => Exhausted(e, expiredAt))
      modifies this`rows
      ensures Valid()
      ensures rows == Updated(old(rows), picked, (e: Envelope) => Disarmed(e, Discarded, e.email, nonce, expiredAt))
      ensures changed == |picked|
    {
      changed := 0;
      ghost var update := (e: Envelope) => Disarmed(e, Discarded, e.email, nonce, expiredAt);
      assert rows == Updated(rows, picked[..0], update);
      for i := 0 to |picked|
        invariant rows == Updated(old(rows), picked[..i], update)
        invariant changed == i
      {
        UpdatedExtends(old(rows), picked, i, update);
        var row := rows[picked[i]];
        rows := rows[picked[i] := row.(
          status := Discarded, digest := OtpDigest(row.email, nonce), live := false,
          credential := Blank, expiresAt := None, terminalAt := Some(expiredAt))];
        changed := changed + 1;
      }
      assert picked[..|picked|] == picked;
    }

    /** Count the attempt first, then consume a live code and rotate the bound credential. */
    method ConfirmPasswordReset(raw: string, code: string, newHash: Option<string>, confirmedAt: Time, nonce: string)
      returns (outcome: ConfirmOutcome)
      requires Valid()
      modifies this`rows, this`users
      ensures Valid()
      ensures outcome == ConfirmOutcomeFor(old(Contents()), raw, code, newHash, confirmedAt)
      ensures Contents() == ConfirmedStore(old(Contents()), raw, code, newHash, confirmedAt, nonce)
    {
      var normalized := NormalizeEmail(raw);
      if normalized.None? {
        return BadConfirmAddress;
      }
      var email := normalized.value;
      var found := FindRow(rows, email);
      var storedDigest := if found.Some? then rows[found.value].digest else MissingDigest(email);
      var digestMatches := storedDigest == OtpDigest(email, code);
      var attemptsBefore := if found.Some? then rows[found.value].attempts else MAX_ATTEMPTS;
      if found.None? {
        return Rejected;
      }
      var pk := found.value;
      var envelope := rows[pk];
      envelope := envelope.(attempts := if envelope.attempts + 1 <= MAX_ATTEMPTS then envelope.attempts + 1 else MAX_ATTEMPTS);
      rows := rows[pk := envelope];
      var stageOnePasses :=
        && digestMatches && envelope.live && envelope.status == Issued && envelope.consumedAt.None?
        && envelope.expiresAt.Some? && envelope.expiresAt.value > confirmedAt
        && attemptsBefore < MAX_ATTEMPTS;
      if !stageOnePasses {
        return Rejected;
      }
      if !CredentialStateMatches(users, envelope, email) {
        DiscardLocked(pk, confirmedAt, nonce, true);
        return Rejected;
      }
      if newHash.None? {
        return PasswordRefused;
      }
      var uid := envelope.user.value;
      users := users[uid := users[uid].(passwordHash := newHash.value, mustChangePassword := false)];
      envelope := envelope.(status := Consumed, consumedAt := Some(confirmedAt), terminalAt := Some(confirmedAt));
      envelope := envelope.(digest := OtpDigest(email, nonce), live := false);
      rows := rows[pk := envelope];
      return Confirmed(uid);
    }

    method DiscardLocked(pk: Pk, now: Time, nonce: string, superseded: bool)
      requires Valid() && pk in rows
      modifies this`rows
      ensures Valid()
      ensures var discarded := Disarmed(old(rows)[pk], Discarded, old(rows)[pk].email, nonce, now);
              rows == old(rows)[pk := if superseded then discarded.(supersededAt := Some(now)) else discarded]
    {
      var envelope := rows[pk];
      envelope := envelope.(status := Discarded, digest := OtpDigest(envelope.email, nonce), live := false);
      envelope := envelope.(credential := Blank, expiresAt := None, terminalAt := Some(now));
      if superseded {
        envelope := envelope.(supersededAt := Some(now));
      }
      rows := rows[pk := envelope];
    }

    /** A locking query with SKIP LOCKED: eligible rows, minus those another worker holds. */
    method QueryBatch(limit: nat, eligible: Envelope -> bool) returns (picked: seq<Pk>)
      ensures Batch(rows, picked, limit, eligible)
    {
      picked := [];
      var remaining := set pk | pk in rows && eligible(rows[pk]);
      while remaining != {} && |picked| < limit
        invariant Batch(rows, picked, limit, eligible)
        invariant forall pk | pk in remaining :: pk in rows && eligible(rows[pk]) && pk !in picked
        decreases remaining
      {
        var pk :| pk in remaining;
        remaining := remaining - {pk};
        var lockedElsewhere: bool := *;
        if !lockedElsewhere {
          picked := picked + [pk];
        }
      }
    }

    /** Whatever other workers, requests, confirmations and sweeps commit between two of our
        transactions: any change of either table. */
    method Interference()
      requires Valid()
      modifies this
      ensures Valid()
    {
    }

    /** One bounded drain. Whatever the world does between its transactions, every claim ends in
        exactly one counter, a claim mails at most once, and nothing counts as issued unmailed. */
    method Drain(batchSize: nat, owner: string, mailOn: bool) returns (outcomes: DrainOutcomes, mailed: seq<EnvelopeClaim>)
      requires Valid()
      modifies this
      ensures Valid()
      ensures outcomes.claimed <= batchSize
      ensures outcomes.claimed == outcomes.issued + outcomes.terminal + outcomes.stale
      ensures outcomes.issued <= |mailed| <= outcomes.claimed
      ensures forall i, j | 0 <= i < j < |mailed| :: mailed[i].envelopeId != mailed[j].envelopeId
    {
      var now: Time, nonce: string := *, *;
      var picked := QueryBatch(batchSize, e => LeaseLost(e, now));
      var swept := ExpireDeliveryLeases(picked, batchSize, now, nonce);
      Interference();
      now, nonce := *, *;
      picked := QueryBatch(batchSize, e => Exhausted(e, now));
      swept := DiscardExpiredIssued(picked, batchSize, now, nonce);
      Interference();
      now := *;
      picked := QueryBatch(batchSize, e => Claimable(e, now));
      var claims := ClaimPendingEnvelopes(picked, batchSize, owner, now);
      outcomes := DrainOutcomes(|claims|, 0, 0, 0);
      mailed := [];
      for i := 0 to |claims|
        invariant Valid()
        invariant outcomes.claimed == |claims|
        invariant i == outcomes.issued + outcomes.terminal + outcomes.stale
        invariant outcomes.issued <= |mailed| <= i
        invariant forall k | 0 <= k < |mailed| :: exists j :: 0 <= j < i && mailed[k] == claims[j]
        invariant forall j, k | 0 <= j < k < |mailed| :: mailed[j].envelopeId != mailed[k].envelopeId
      {
        Interference();
        var code: string := *;
        now, nonce := *, *;
        var attempt := PrepareDelivery(claims[i], now, mailOn, code, nonce);
        match attempt {
          case Stale =>
            outcomes := outcomes.(stale := outcomes.stale + 1);
          case Terminal(_) =>
            outcomes := outcomes.(terminal := outcomes.terminal + 1);
          case Attempt(recipient, secret) =>
            // The mail leaves outside every transaction; the provider may say anything.
            Interference();
            var delivered: bool := *;
            mailed := mailed + [claims[i]];
            Interference();
            now, nonce := *, *;
            var updated := FinalizeDelivery(claims[i], delivered, now, nonce);
            if !updated {
              outcomes := outcomes.(stale := outcomes.stale + 1);
            } else if delivered {
              outcomes := outcomes.(issued := outcomes.issued + 1);
            } else {
              outcomes := outcomes.(terminal := outcomes.terminal + 1);
            }
        }
      }
    }
  }
}
