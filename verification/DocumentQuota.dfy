/** Storage debits for removable documents, proven from an append-only log and refunded once.

    The log is never trusted: any event may be malformed, foreign or repeated. A refund is decided
    from it afresh, under the makerspace's row lock. */
module DocumentQuota {
  import opened Common

  type SpaceId = nat
  type EventId = nat        // 0 is a missing or nil identifier, which is not canonical
  type Origin = nat

  datatype Kind = Warranty | Receipt

  datatype Action = Added(kind: Kind) | Released | OtherAction

  /** A creation time as the row's ISO string; `Loose` is any other text. */
  datatype RowTime = Canonical(at: int) | Loose(text: string)

  /** Ideal digest of an object key. */
  datatype Sha = Sha(key: string)

  datatype Field<T> = Absent | Wrong | Is(value: T)

  datatype Meta = NotADict
                | Meta(version: Field<int>, bytes: Field<int>, database: Field<string>, origin: Field<Origin>,
                       key: Field<Sha>, rowTime: Field<RowTime>, charge: Field<EventId>)

  datatype Event = Event(id: EventId, space: SpaceId, action: Action, targetKind: Option<Kind>, targetId: string, meta: Meta)

  /** The document a debit was for. */
  datatype Target = Target(space: SpaceId, kind: Kind, id: string, key: string, rowTime: RowTime)

  datatype Proof = Proof(target: Target, bytes: int, database: string, origin: Origin, charge: EventId)

  datatype Context = Context(database: string, origin: Origin)

  predicate CanonicalPk(id: string) {
    id != "" && '1' <= id[0] <= '9' && forall i | 0 <= i < |id| :: '0' <= id[i] <= '9'
  }

  predicate ValidTarget(t: Target) {
    t.space > 0 && CanonicalPk(t.id) && t.key != "" && t.rowTime.Canonical?
  }

  predicate HasProofField(m: Meta) {
    m.Meta? && !(m.version.Absent? && m.bytes.Absent? && m.database.Absent? && m.origin.Absent?
                 && m.key.Absent? && m.rowTime.Absent?)
  }

  /** An event that speaks about this incarnation of the target, soundly or not. */
  predicate Marks(e: Event, t: Target) {
    && e.space == t.space && e.targetKind == Some(t.kind) && e.targetId == t.id && e.action == Added(t.kind)
    && HasProofField(e.meta)
    && !(e.meta.rowTime.Is? && e.meta.rowTime.value.Canonical? && e.meta.rowTime.value != t.rowTime)
  }

  function ParseCharge(e: Event, t: Target, context: Context): Option<Proof> {
    if !ValidTarget(t) || e.space != t.space || e.targetKind != Some(t.kind) || e.targetId != t.id
       || e.action != Added(t.kind) || e.id == 0 || e.meta.NotADict?
       || e.meta.version != Is(1) || !e.meta.bytes.Is? || e.meta.bytes.value <= 0
       || e.meta.database != Is(context.database) || e.meta.origin != Is(context.origin)
       || e.meta.key != Is(Sha(t.key)) || e.meta.rowTime != Is(t.rowTime)
    then None
    else Some(Proof(t, e.meta.bytes.value, context.database, context.origin, e.id))
  }

  /** The marks of a target in a log, in order. */
  function MarksOf(log: seq<Event>, t: Target): seq<Event>
    decreases |log|
  {
    if log == [] then []
    else MarksOf(log[..|log| - 1], t) + if Marks(log[|log| - 1], t) then [log[|log| - 1]] else []
  }

  predicate ReleasedIn(log: seq<Event>, space: SpaceId, charge: EventId) {
    exists i :: 0 <= i < |log| && log[i].space == space && log[i].action == Released
                && log[i].meta.Meta? && log[i].meta.charge == Is(charge)
  }

  function ProvenCharge(log: seq<Event>, context: Option<Context>, t: Target): Option<Proof> {
    if !ValidTarget(t) || context.None? || |MarksOf(log, t)| != 1 then None
    else
      match ParseCharge(MarksOf(log, t)[0], t, context.value)
      case None => None
      case Some(proof) => if ReleasedIn(log, t.space, proof.charge) then None else Some(proof)
  }

  function ChargeByEvent(log: seq<Event>, context: Option<Context>, t: Target, bytes: int, charge: EventId): Option<Proof> {
    if charge == 0 || bytes <= 0 then None
    else
      match ProvenCharge(log, context, t)
      case None => None
      case Some(proof) => if proof.charge != charge || proof.bytes != bytes then None else Some(proof)
  }

  function ChargeMeta(t: Target, bytes: int, context: Context): Meta {
    Meta(Is(1), Is(bytes), Is(context.database), Is(context.origin), Is(Sha(t.key)), Is(t.rowTime), Absent)
  }

  function ReleaseMeta(p: Proof): Meta {
    Meta(Is(1), Is(p.bytes), Is(p.database), Is(p.origin), Is(Sha(p.target.key)), Is(p.target.rowTime), Is(p.charge))
  }

  datatype Store = Store(log: seq<Event>, usage: map<SpaceId, int>, context: Option<Context>)

  predicate Chargeable(s: Store, t: Target, bytes: int, limit: int) {
    && t.space in s.usage && s.usage[t.space] + bytes <= limit
    && bytes > 0 && s.context.Some? && ValidTarget(t)
  }

  function Charged(s: Store, t: Target, bytes: int, id: EventId): Store
    requires t.space in s.usage && s.context.Some? && bytes > 0
  {
    s.(log := s.log + [Event(id, t.space, Added(t.kind), Some(t.kind), t.id, ChargeMeta(t, bytes, s.context.value))],
       usage := s.usage[t.space := s.usage[t.space] + bytes])
  }

  predicate Refundable(s: Store, p: Proof) {
    && p.target.space in s.usage
    && ChargeByEvent(s.log, s.context, p.target, p.bytes, p.charge) == Some(p)
    && s.usage[p.target.space] >= p.bytes
  }

  function Refunded(s: Store, p: Proof, id: EventId): Store
    requires p.target.space in s.usage && s.usage[p.target.space] >= p.bytes
  {
    s.(log := s.log + [Event(id, p.target.space, Released, Some(p.target.kind), p.target.id, ReleaseMeta(p))],
       usage := s.usage[p.target.space := s.usage[p.target.space] - p.bytes])
  }

  class QuotaLedger {
    var log: seq<Event>
    var usage: map<SpaceId, int>
    var context: Option<Context>

    function Contents(): Store reads this {
      Store(log, usage, context)
    }

    constructor (usage: map<SpaceId, int>, context: Option<Context>)
      ensures Contents() == Store([], usage, context)
    {
      this.log, this.usage, this.context := [], usage, context;
    }

    /** Debit and record the proof together, or neither. */
    method Charge(t: Target, bytes: int, limit: int, id: EventId) returns (charged: bool)
      modifies this`log, this`usage
      ensures charged == Chargeable(old(Contents()), t, bytes, limit)
      ensures Contents() == if charged then Charged(old(Contents()), t, bytes, id) else old(Contents())
    {
      if t.space !in usage || bytes <= 0 || usage[t.space] + bytes > limit {
        return false;
      }
      var saved := usage;
      usage := usage[t.space := usage[t.space] + bytes];
      if context.None? || !ValidTarget(t) {
        usage := saved;
        return false;
      }
      log := log + [Event(id, t.space, Added(t.kind), Some(t.kind), t.id, ChargeMeta(t, bytes, context.value))];
      return true;
    }

    method FindProof(t: Target) returns (proof: Option<Proof>)
      ensures proof == ProvenCharge(log, context, t)
    {
      if !ValidTarget(t) || context.None? {
        return None;
      }
      var markers: seq<Event> := [];
      for i := 0 to |log|
        invariant markers == MarksOf(log[..i], t) && |markers| <= 1
      {
        assert log[..i + 1][..i] == log[..i];
        if Marks(log[i], t) {
          markers := markers + [log[i]];
          if |markers| > 1 {
            MarksPrefix(log, i + 1, t);
            return None;
          }
        }
      }
      assert log[..|log|] == log;
      if |markers| != 1 {
        return None;
      }
      proof := ParseCharge(markers[0], t, context.value);
      if proof.Some? && ReleasedIn(log, t.space, proof.value.charge) {
        proof := None;
      }
    }

    /** Refund a proven debit and write its marker together; everything else is refused unchanged. */
    method ReleaseChargeOnce(p: Proof, selfHosted: bool, verified: bool, id: EventId) returns (released: bool)
      modifies this`log, this`usage
      ensures released == (!selfHosted && verified && Refundable(old(Contents()), p))
      ensures Contents() == if released then Refunded(old(Contents()), p, id) else old(Contents())
    {
      if selfHosted || !verified || p.target.space !in usage {
        return false;
      }
      var space := p.target.space;
      if p.charge == 0 || p.bytes <= 0 {
        return false;
      }
      var current := FindProof(p.target);
      if current != Some(p) || usage[space] < p.bytes {
        return false;
      }
      usage := usage[space := if usage[space] - p.bytes > 0 then usage[space] - p.bytes else 0];
      log := log + [Event(id, space, Released, Some(p.target.kind), p.target.id, ReleaseMeta(p))];
      return true;
    }
  }

  lemma {:induction false} MarksPrefix(log: seq<Event>, n: nat, t: Target)
    requires n <= |log|
    ensures |MarksOf(log[..n], t)| <= |MarksOf(log, t)|
    ensures MarksOf(log[..n], t) == MarksOf(log, t)[..|MarksOf(log[..n], t)|]
    decreases |log|
  {
    if n < |log| {
      MarksPrefix(log[..|log| - 1], n, t);
      assert log[..|log| - 1][..n] == log[..n];
    } else {
      assert log[..n] == log;
    }
  }
}

/** Any interleaving of charges, refunds of arbitrary proofs, tenant imports, events written by other
    means, other storage users and changes of context. */
module DocumentQuotaRuns {
  import opened Common
  import opened DocumentQuota

  datatype Entry = Entry(id: EventId, target: Target, bytes: int, refunded: bool)

  /** `debits` and `refunds` are what happened; `others` is what other users of storage hold. */
  datatype World = World(store: Store, home: string, ids: set<EventId>, debits: seq<Entry>, refunds: seq<Proof>,
                         others: map<SpaceId, int>)

  datatype Step =
    | Charge(t: Target, bytes: int, limit: int, id: EventId)
    | Release(p: Proof, selfHosted: bool, verified: bool, id: EventId)
    | Import(e: Event)
    | Insert(e: Event)
    | SetContext(context: Option<Context>)
    | OtherUse(space: SpaceId, used: nat)

  /** A tenant import writes any event it is given, without its identity. */
  function Imported(e: Event): Event {
    e.(id := 0)
  }

  /** An event that some target, under some context of this database, would accept as its debit. */
  predicate Spendable(e: Event, home: string) {
    && e.id != 0 && e.space > 0 && CanonicalPk(e.targetId)
    && e.action.Added? && e.targetKind == Some(e.action.kind) && e.meta.Meta?
    && e.meta.version == Is(1) && e.meta.bytes.Is? && e.meta.bytes.value > 0
    && e.meta.database == Is(home) && e.meta.origin.Is?
    && e.meta.key.Is? && e.meta.key.value.key != ""
    && e.meta.rowTime.Is? && e.meta.rowTime.value.Canonical?
  }

  predicate Enabled(w: World, step: Step) {
    match step
    case Charge(_, _, _, id) => id != 0 && id !in w.ids
    case Release(_, _, _, id) => id !in w.ids
    case Import(_) => true
    case Insert(e) => e.id == 0 || e.id !in w.ids
    case SetContext(context) => context.Some? ==> context.value.database == w.home
    case OtherUse(space, _) => space in w.store.usage && space in w.others
  }

  function Flagged(debits: seq<Entry>, charge: EventId): seq<Entry> {
    seq(|debits|, i requires 0 <= i < |debits| =>
      if debits[i].id == charge then debits[i].(refunded := true) else debits[i])
  }

  function Next(w: World, step: Step): World
    requires Enabled(w, step)
  {
    var s := w.store;
    match step
    case Charge(t, bytes, limit, id) =>
      if !Chargeable(s, t, bytes, limit) then w
      else w.(store := Charged(s, t, bytes, id), ids := w.ids + {id}, debits := w.debits + [Entry(id, t, bytes, false)])
    case Release(p, selfHosted, verified, id) =>
      if selfHosted || !verified || !Refundable(s, p) then w
      else w.(store := Refunded(s, p, id), ids := w.ids + {id}, refunds := w.refunds + [p],
              debits := Flagged(w.debits, p.charge))
    case Import(e) => w.(store := s.(log := s.log + [Imported(e)]))
    case Insert(e) => w.(store := s.(log := s.log + [e]), ids := w.ids + {e.id})
    case SetContext(context) => w.(store := s.(context := context))
    case OtherUse(space, used) =>
      w.(store := s.(usage := s.usage[space := used]), others := w.others[space := w.others[space] + used - s.usage[space]])
  }

  predicate Sound(step: Step, home: string) {
    step.Insert? ==> !Spendable(step.e, home)
  }

  /** No spendable event is written by other means; charges, refunds and imports are not restricted. */
  predicate AllSound(steps: seq<Step>, home: string) {
    forall i | 0 <= i < |steps| :: Sound(steps[i], home)
  }

  predicate Run(w: World, steps: seq<Step>)
    decreases |steps|
  {
    steps == [] || (Enabled(w, steps[0]) && Run(Next(w, steps[0]), steps[1..]))
  }

  function End(w: World, steps: seq<Step>): World
    requires Run(w, steps)
    decreases |steps|
  {
    if steps == [] then w else End(Next(w, steps[0]), steps[1..])
  }

  function Debited(debits: seq<Entry>, space: SpaceId): int
    decreases |debits|
  {
    if debits == [] then 0
    else
      var last := debits[|debits| - 1];
      Debited(debits[..|debits| - 1], space) + if last.target.space == space then last.bytes else 0
  }

  /** The part of the debits whose entry is flagged as refunded. */
  function Returned(debits: seq<Entry>, space: SpaceId): int
    decreases |debits|
  {
    if debits == [] then 0
    else
      var last := debits[|debits| - 1];
      Returned(debits[..|debits| - 1], space) + if last.refunded && last.target.space == space then last.bytes else 0
  }

  function Credited(refunds: seq<Proof>, space: SpaceId): int
    decreases |refunds|
  {
    if refunds == [] then 0
    else
      var last := refunds[|refunds| - 1];
      Credited(refunds[..|refunds| - 1], space) + if last.target.space == space then last.bytes else 0
  }

  // ---- The invariant -----------------------------------------------------------------------

  predicate Backs(entry: Entry, p: Proof) {
    entry.id == p.charge && entry.target == p.target && entry.bytes == p.bytes
  }

  /** An event that could pass for a debit of this database is one. */
  ghost predicate EventInv(w: World, e: Event) {
    && (e.id != 0 ==> e.id in w.ids)
    && (Spendable(e, w.home) ==>
          exists i :: 0 <= i < |w.debits| && w.debits[i].id == e.id && Records(e, w.debits[i]))
  }

  /** The event is the record of the debit. */
  predicate Records(e: Event, entry: Entry) {
    var t := entry.target;
    && e.space == t.space && e.action == Added(t.kind) && e.targetKind == Some(t.kind) && e.targetId == t.id
    && e.meta.Meta? && e.meta.bytes == Is(entry.bytes) && e.meta.key == Is(Sha(t.key)) && e.meta.rowTime == Is(t.rowTime)
  }

  ghost predicate DebitsInv(w: World) {
    && (forall i | 0 <= i < |w.debits| :: w.debits[i].id in w.ids && w.debits[i].id != 0 && w.debits[i].bytes > 0)
    && (forall i, j | 0 <= i < j < |w.debits| :: w.debits[i].id != w.debits[j].id)
    && (forall i | 0 <= i < |w.debits| && w.debits[i].refunded ::
          ReleasedIn(w.store.log, w.debits[i].target.space, w.debits[i].id))
  }

  ghost predicate RefundsInv(w: World) {
    && (forall k | 0 <= k < |w.refunds| :: Settled(w, w.refunds[k]))
    && (forall k, l | 0 <= k < l < |w.refunds| :: w.refunds[k].charge != w.refunds[l].charge)
  }

  /** The refund answers a recorded debit: same event, same target, same bytes. */
  ghost predicate Settled(w: World, p: Proof) {
    exists i :: 0 <= i < |w.debits| && Backs(w.debits[i], p) && w.debits[i].refunded
  }

  ghost predicate TotalsInv(w: World) {
    && (forall space: SpaceId :: Credited(w.refunds, space) == Returned(w.debits, space))
    && (forall space | space in w.store.usage :: space in w.others && w.store.usage[space] >= 0
          && w.store.usage[space] == w.others[space] + Debited(w.debits, space) - Credited(w.refunds, space))
  }

  ghost predicate Inv(w: World) {
    && (forall i | 0 <= i < |w.store.log| :: EventInv(w, w.store.log[i]))
    && (w.store.context.Some? ==> w.store.context.value.database == w.home)
    && DebitsInv(w) && RefundsInv(w) && TotalsInv(w)
  }

  lemma ReleasedStays(log: seq<Event>, e: Event, space: SpaceId, charge: EventId)
    requires ReleasedIn(log, space, charge)
    ensures ReleasedIn(log + [e], space, charge)
  {
    var i :| 0 <= i < |log| && log[i].space == space && log[i].action == Released
             && log[i].meta.Meta? && log[i].meta.charge == Is(charge);
    assert (log + [e])[i] == log[i];
  }

  lemma {:induction false} MarkIsEvent(log: seq<Event>, t: Target, k: nat) returns (i: nat)
    requires k < |MarksOf(log, t)|
    ensures i < |log| && log[i] == MarksOf(log, t)[k] && Marks(log[i], t)
    decreases |log|
  {
    var front := log[..|log| - 1];
    if k < |MarksOf(front, t)| { i := MarkIsEvent(front, t, k); } else { i := |log| - 1; }
  }

  /** A proof that passes is backed by a debit not refunded so far. */
  lemma ProofIsBacked(w: World, p: Proof) returns (i: nat)
    requires Inv(w) && Refundable(w.store, p)
    ensures i < |w.debits| && Backs(w.debits[i], p) && !w.debits[i].refunded
  {
    var k := MarkIsEvent(w.store.log, p.target, 0);
    var e := w.store.log[k];
    assert EventInv(w, e);
    i :| 0 <= i < |w.debits| && w.debits[i].id == e.id && Records(e, w.debits[i]);
  }

  lemma {:induction false} FlaggedTotals(debits: seq<Entry>, charge: EventId, i: nat, space: SpaceId)
    requires i < |debits| && debits[i].id == charge && !debits[i].refunded
    requires forall a, b | 0 <= a < b < |debits| :: debits[a].id != debits[b].id
    ensures Debited(Flagged(debits, charge), space) == Debited(debits, space)
    ensures Returned(Flagged(debits, charge), space)
         == Returned(debits, space) + if debits[i].target.space == space then debits[i].bytes else 0
    decreases |debits|
  {
    var front := debits[..|debits| - 1];
    assert Flagged(debits, charge)[..|debits| - 1] == Flagged(front, charge);
    if i == |debits| - 1 {
      assert Flagged(front, charge) == front;
    } else {
      FlaggedTotals(front, charge, i, space);
    }
  }

  lemma ChargeKeeps(w: World, step: Step)
    requires Inv(w) && Enabled(w, step) && step.Charge?
    ensures Inv(Next(w, step))
  {
    var w' := Next(w, step);
    if Chargeable(w.store, step.t, step.bytes, step.limit) {
      var n := |w.debits|;
      assert w'.debits[..n] == w.debits;
      forall i | 0 <= i < |w'.store.log| ensures EventInv(w', w'.store.log[i]) {
        if i < |w.store.log| { OldEventKept(w, w', w.store.log[i]); } else { assert Records(w'.store.log[i], w'.debits[n]); }
      }
      forall i | 0 <= i < n && w.debits[i].refunded
        ensures ReleasedIn(w'.store.log, w.debits[i].target.space, w.debits[i].id)
      {
        ReleasedStays(w.store.log, w'.store.log[|w.store.log|], w.debits[i].target.space, w.debits[i].id);
      }
      forall k | 0 <= k < |w.refunds| ensures Settled(w', w.refunds[k]) { SettledKept(w, w', w.refunds[k]); }
    }
  }

  lemma OldEventKept(w: World, w': World, e: Event)
    requires EventInv(w, e) && w.ids <= w'.ids && w.home == w'.home && w.debits <= w'.debits
    ensures EventInv(w', e)
  {
    if Spendable(e, w.home) {
      var i :| 0 <= i < |w.debits| && w.debits[i].id == e.id && Records(e, w.debits[i]);
      assert w'.debits[i] == w.debits[i];
    }
  }

  lemma SettledKept(w: World, w': World, p: Proof)
    requires Settled(w, p) && w.debits <= w'.debits
    ensures Settled(w', p)
  {
    var i :| 0 <= i < |w.debits| && Backs(w.debits[i], p) && w.debits[i].refunded;
    assert w'.debits[i] == w.debits[i];
  }

  lemma ReleaseEvents(w: World, step: Step)
    requires Inv(w) && Enabled(w, step) && step.Release? && Refundable(w.store, step.p) && !step.selfHosted && step.verified
    ensures var w' := Next(w, step); forall i | 0 <= i < |w'.store.log| :: EventInv(w', w'.store.log[i])
  {
    var w' := Next(w, step);
    forall i | 0 <= i < |w'.store.log| ensures EventInv(w', w'.store.log[i]) {
      if i < |w.store.log| {
        var e := w.store.log[i];
        assert EventInv(w, e) && w'.store.log[i] == e;
        if Spendable(e, w.home) {
          var k :| 0 <= k < |w.debits| && w.debits[k].id == e.id && Records(e, w.debits[k]);
          assert w'.debits[k].id == e.id && Records(e, w'.debits[k]);
        }
      }
    }
  }

  lemma ReleaseDebits(w: World, step: Step)
    requires Inv(w) && Enabled(w, step) && step.Release? && Refundable(w.store, step.p) && !step.selfHosted && step.verified
    ensures DebitsInv(Next(w, step))
  {
    var w' := Next(w, step);
    var b := ProofIsBacked(w, step.p);
    var n := |w.store.log|;
    forall i | 0 <= i < |w'.debits| && w'.debits[i].refunded
      ensures ReleasedIn(w'.store.log, w'.debits[i].target.space, w'.debits[i].id)
    {
      if w.debits[i].refunded {
        ReleasedStays(w.store.log, w'.store.log[n], w.debits[i].target.space, w.debits[i].id);
      } else {
        assert i == b;
        assert w'.store.log[n].action == Released;
      }
    }
  }

  lemma ReleaseRefunds(w: World, step: Step)
    requires Inv(w) && Enabled(w, step) && step.Release? && Refundable(w.store, step.p) && !step.selfHosted && step.verified
    ensures RefundsInv(Next(w, step))
  {
    var w' := Next(w, step);
    var b := ProofIsBacked(w, step.p);
    forall k | 0 <= k < |w.refunds|
      ensures Settled(w', w.refunds[k]) && w.refunds[k].charge != step.p.charge
    {
      assert Settled(w, w.refunds[k]);
      var i :| 0 <= i < |w.debits| && Backs(w.debits[i], w.refunds[k]) && w.debits[i].refunded;
      assert Backs(w'.debits[i], w.refunds[k]) && w'.debits[i].refunded;
      assert i != b;
    }
    assert Backs(w'.debits[b], step.p) && w'.debits[b].refunded;
    assert Settled(w', step.p);
  }

  lemma ReleaseTotals(w: World, step: Step)
    requires Inv(w) && Enabled(w, step) && step.Release? && Refundable(w.store, step.p) && !step.selfHosted && step.verified
    ensures TotalsInv(Next(w, step))
  {
    var w' := Next(w, step);
    var b := ProofIsBacked(w, step.p);
    assert w'.refunds[..|w.refunds|] == w.refunds;
    forall space: SpaceId
      ensures Credited(w'.refunds, space) == Returned(w'.debits, space)
      ensures Debited(w'.debits, space) == Debited(w.debits, space)
      ensures Credited(w'.refunds, space) == Credited(w.refunds, space) + if step.p.target.space == space then step.p.bytes else 0
    {
      FlaggedTotals(w.debits, step.p.charge, b, space);
    }
  }

  lemma AppendKeeps(w: World, step: Step)
    requires Inv(w) && Enabled(w, step) && (step.Import? || step.Insert?) && Sound(step, w.home)
    ensures Inv(Next(w, step))
  {
    var w' := Next(w, step);
    forall i | 0 <= i < |w'.store.log| ensures EventInv(w', w'.store.log[i]) {
      if i < |w.store.log| { OldEventKept(w, w', w.store.log[i]); }
    }
    forall i | 0 <= i < |w.debits| && w.debits[i].refunded
      ensures ReleasedIn(w'.store.log, w.debits[i].target.space, w.debits[i].id)
    {
      ReleasedStays(w.store.log, w'.store.log[|w.store.log|], w.debits[i].target.space, w.debits[i].id);
    }
    forall k | 0 <= k < |w.refunds| ensures Settled(w', w.refunds[k]) { SettledKept(w, w', w.refunds[k]); }
  }

  lemma QuietKeeps(w: World, step: Step)
    requires Inv(w) && Enabled(w, step) && (step.SetContext? || step.OtherUse?)
    ensures Inv(Next(w, step))
  {
    var w' := Next(w, step);
    forall i | 0 <= i < |w'.store.log| ensures EventInv(w', w'.store.log[i]) { OldEventKept(w, w', w.store.log[i]); }
    forall k | 0 <= k < |w.refunds| ensures Settled(w', w.refunds[k]) { SettledKept(w, w', w.refunds[k]); }
  }

  lemma StepKeeps(w: World, step: Step)
    requires Inv(w) && Enabled(w, step) && Sound(step, w.home)
    ensures Inv(Next(w, step))
  {
    match step
    case Charge(_, _, _, _) => ChargeKeeps(w, step);
    case Release(p, selfHosted, verified, _) =>
      if !selfHosted && verified && Refundable(w.store, p) {
        ReleaseEvents(w, step);
        ReleaseDebits(w, step);
        ReleaseRefunds(w, step);
        ReleaseTotals(w, step);
      }
    case Import(_) => AppendKeeps(w, step);
    case Insert(_) => AppendKeeps(w, step);
    case _ => QuietKeeps(w, step);
  }

  lemma {:induction false} RunKeeps(w: World, steps: seq<Step>)
    requires Inv(w) && Run(w, steps) && AllSound(steps, w.home)
    ensures Inv(End(w, steps)) && End(w, steps).home == w.home
    decreases |steps|
  {
    if steps != [] {
      StepKeeps(w, steps[0]);
      RunKeeps(Next(w, steps[0]), steps[1..]);
    }
  }

  predicate Fresh(w: World) {
    && w.store.log == [] && w.ids == {} && w.debits == [] && w.refunds == []
    && (w.store.context.Some? ==> w.store.context.value.database == w.home)
    && forall space | space in w.store.usage :: space in w.others && w.others[space] == w.store.usage[space] && w.store.usage[space] >= 0
  }

  // ---- What holds over every run ---------------------------------------------------------------

  /** Each debit is refunded at most once, and exactly its own bytes, target and makerspace. */
  lemma RefundsAreOneShot(w: World, steps: seq<Step>)
    requires Fresh(w) && Run(w, steps) && AllSound(steps, w.home)
    ensures var end := End(w, steps);
            && (forall k, l | 0 <= k < l < |end.refunds| :: end.refunds[k].charge != end.refunds[l].charge)
            && (forall k | 0 <= k < |end.refunds| :: Settled(end, end.refunds[k]))
            && (forall i, j | 0 <= i < j < |end.debits| :: end.debits[i].id != end.debits[j].id)
  {
    RunKeeps(w, steps);
  }

  lemma {:induction false} ReturnedWithinDebited(debits: seq<Entry>, space: SpaceId)
    requires forall i | 0 <= i < |debits| :: debits[i].bytes > 0
    ensures 0 <= Returned(debits, space) <= Debited(debits, space)
    decreases |debits|
  {
    if debits != [] { ReturnedWithinDebited(debits[..|debits| - 1], space); }
  }

  /** Usage is what other users hold plus debits minus refunds, and refunds never exceed debits. */
  lemma RefundsNeverExceedDebits(w: World, steps: seq<Step>, space: SpaceId)
    requires Fresh(w) && Run(w, steps) && AllSound(steps, w.home)
    ensures var end := End(w, steps);
            && 0 <= Credited(end.refunds, space) <= Debited(end.debits, space)
            && (space in end.store.usage ==>
                  && space in end.others && 0 <= end.store.usage[space]
                  && end.store.usage[space] == end.others[space] + Debited(end.debits, space) - Credited(end.refunds, space))
  {
    RunKeeps(w, steps);
    ReturnedWithinDebited(End(w, steps).debits, space);
  }

  /** Charges, refunds and tenant imports of any content need no assumption. */
  lemma ImportsAreNoDebits(w: World, steps: seq<Step>, space: SpaceId)
    requires Fresh(w) && Run(w, steps) && forall i | 0 <= i < |steps| :: !steps[i].Insert?
    ensures Credited(End(w, steps).refunds, space) <= Debited(End(w, steps).debits, space)
  {
    assert AllSound(steps, w.home);
    RefundsNeverExceedDebits(w, steps, space);
  }

  // ---- Exactly when refunds stay within debits --------------------------------------------------

  predicate InsertsFrom(steps: seq<Step>, allowed: iset<Event>) {
    forall i | 0 <= i < |steps| && steps[i].Insert? :: steps[i].e in allowed
  }

  /** On every run that writes only these events by other means, refunds stay within debits. */
  ghost predicate AlwaysBounded(allowed: iset<Event>, home: string) {
    forall w: World, steps: seq<Step>, space: SpaceId
      | Fresh(w) && w.home == home && Run(w, steps) && InsertsFrom(steps, allowed)
      :: Credited(End(w, steps).refunds, space) <= Debited(End(w, steps).debits, space)
  }

  function SpentProof(e: Event): Proof
    requires e.meta.Meta? && e.meta.bytes.Is? && e.meta.database.Is? && e.meta.origin.Is? && e.meta.key.Is?
    requires e.meta.rowTime.Is? && e.action.Added?
  {
    Proof(Target(e.space, e.action.kind, e.targetId, e.meta.key.value.key, e.meta.rowTime.value),
          e.meta.bytes.value, e.meta.database.value, e.meta.origin.value, e.id)
  }

  function Alone(e: Event): Store
    requires e.meta.Meta? && e.meta.bytes.Is? && e.meta.database.Is? && e.meta.origin.Is?
  {
    Store([e], map[e.space := e.meta.bytes.value], Some(Context(e.meta.database.value, e.meta.origin.value)))
  }

  lemma AloneIsRefundable(e: Event, home: string)
    requires Spendable(e, home)
    ensures Refundable(Alone(e), SpentProof(e))
  {
    var p := SpentProof(e);
    var s := Alone(e);
    assert s.log[..0] == [];
    assert Marks(e, p.target);
    assert MarksOf(s.log, p.target) == [e] by { assert MarksOf([], p.target) == []; }
    assert ParseCharge(e, p.target, s.context.value) == Some(p);
    assert !ReleasedIn(s.log, e.space, e.id);
  }

  lemma TwoSteps(w: World, first: Step, second: Step)
    requires Enabled(w, first) && Enabled(Next(w, first), second)
    ensures Run(w, [first, second]) && End(w, [first, second]) == Next(Next(w, first), second)
  {
    var steps, middle := [first, second], Next(w, first);
    assert steps[1..] == [second] && steps[1..][1..] == [];
    assert Run(middle, steps[1..]) by { assert Run(Next(middle, second), steps[1..][1..]); }
    assert End(middle, steps[1..]) == End(Next(middle, second), []);
  }

  /** A spendable event alone is refunded without any debit. */
  lemma SpentWithoutDebit(e: Event, home: string) returns (w: World, steps: seq<Step>)
    requires Spendable(e, home)
    ensures Fresh(w) && w.home == home && Run(w, steps) && InsertsFrom(steps, iset{e})
    ensures Credited(End(w, steps).refunds, e.space) == e.meta.bytes.value > Debited(End(w, steps).debits, e.space)
  {
    var p := SpentProof(e);
    w := World(Alone(e).(log := []), home, {}, [], [], map[e.space := e.meta.bytes.value]);
    var first, second := Insert(e), Release(p, false, true, e.id + 1);
    steps := [first, second];
    AloneIsRefundable(e, home);
    var middle := Next(w, first);
    assert middle.store == Alone(e) && middle.ids == {e.id};
    TwoSteps(w, first, second);
    var last := Next(middle, second);
    assert last.refunds == [p] && last.debits == [];
    OneRefund(p);
  }

  lemma OneRefund(p: Proof)
    ensures Credited([p], p.target.space) == p.bytes
  {
    assert [p][..0] == [];
    assert Credited([], p.target.space) == 0;
  }

  lemma BoundedExactlyWhenNothingSpendable(allowed: iset<Event>, home: string)
    ensures AlwaysBounded(allowed, home) <==> forall e | e in allowed :: !Spendable(e, home)
  {
    if AlwaysBounded(allowed, home) {
      forall e | e in allowed ensures !Spendable(e, home) {
        if Spendable(e, home) {
          var w, steps := SpentWithoutDebit(e, home);
          assert InsertsFrom(steps, allowed);
        }
      }
    }
    if forall e | e in allowed :: !Spendable(e, home) {
      forall w: World, steps: seq<Step>, space: SpaceId
        | Fresh(w) && w.home == home && Run(w, steps) && InsertsFrom(steps, allowed)
        ensures Credited(End(w, steps).refunds, space) <= Debited(End(w, steps).debits, space)
      {
        RefundsNeverExceedDebits(w, steps, space);
      }
    }
  }

  /** Refund authority that was lost: the debit was released, or the same incarnation of the target
      has a second mark. */
  predicate Lost(log: seq<Event>, t: Target, charge: EventId) {
    ReleasedIn(log, t.space, charge) || |MarksOf(log, t)| > 1
  }

  lemma LostMeansRefused(log: seq<Event>, context: Option<Context>, t: Target, bytes: int, charge: EventId)
    requires Lost(log, t, charge)
    ensures ChargeByEvent(log, context, t, bytes, charge) == None
  {}

  lemma LostStays(log: seq<Event>, e: Event, t: Target, charge: EventId)
    requires Lost(log, t, charge)
    ensures Lost(log + [e], t, charge)
  {
    assert (log + [e])[..|log|] == log;
    if ReleasedIn(log, t.space, charge) { ReleasedStays(log, e, t.space, charge); }
  }

  /** Nothing that is appended later, by anyone, gives it back. */
  lemma {:induction false} AuthorityNeverReturns(w: World, steps: seq<Step>, t: Target, bytes: int, charge: EventId,
                                                 context: Option<Context>)
    requires Run(w, steps) && Lost(w.store.log, t, charge)
    ensures ChargeByEvent(End(w, steps).store.log, context, t, bytes, charge) == None
    decreases |steps|
  {
    if steps == [] {
      LostMeansRefused(w.store.log, context, t, bytes, charge);
    } else {
      var next := Next(w, steps[0]);
      if next.store.log != w.store.log {
        var e := next.store.log[|w.store.log|];
        assert next.store.log == w.store.log + [e];
        LostStays(w.store.log, e, t, charge);
      }
      AuthorityNeverReturns(next, steps[1..], t, bytes, charge, context);
    }
  }

  /** A charge gives refund authority exactly when its incarnation had no mark yet. */
  lemma ChargeGivesAuthority(s: Store, t: Target, bytes: int, limit: int, id: EventId)
    requires Chargeable(s, t, bytes, limit) && id != 0 && !ReleasedIn(s.log, t.space, id)
    ensures var after := Charged(s, t, bytes, id);
            var p := Proof(t, bytes, s.context.value.database, s.context.value.origin, id);
            ChargeByEvent(after.log, after.context, t, bytes, id) == Some(p) <==> MarksOf(s.log, t) == []
  {
    var after := Charged(s, t, bytes, id);
    var n := |s.log|;
    var e := after.log[n];
    assert after.log[..n] == s.log;
    assert MarksOf(after.log, t) == MarksOf(s.log, t) + [e];
    assert forall i | 0 <= i < n :: after.log[i] == s.log[i];
  }
}
