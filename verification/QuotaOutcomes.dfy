/** What the storage-charge services do, on the raw events of the log: when a debit is made, what proves
    it, and when it is refunded. */
module QuotaOutcomes {
  import opened Common
  import opened DocumentQuota
  import opened DocumentQuotaRuns

  /** A positive decimal number without leading zeros. */
  predicate Decimal(id: string) {
    && |id| > 0 && id[0] in {'1', '2', '3', '4', '5', '6', '7', '8', '9'}
    && forall i | 0 <= i < |id| :: id[i] in {'0', '1', '2', '3', '4', '5', '6', '7', '8', '9'}
  }

  /** A document that may be charged for. */
  predicate Removable(t: Target) {
    t.space != 0 && Decimal(t.id) && t.key != "" && t.rowTime.Canonical?
  }

  /** The event adds this document and says anything a proof would, but for one that clearly is about
      an earlier document of that number. */
  predicate Speaks(e: Event, t: Target) {
    && e.space == t.space && e.targetKind == Some(t.kind) && e.targetId == t.id && e.action == Added(t.kind)
    && e.meta.Meta?
    && (|| e.meta.version != Absent || e.meta.bytes != Absent || e.meta.database != Absent || e.meta.origin != Absent
        || e.meta.key != Absent || e.meta.rowTime != Absent)
    && (e.meta.rowTime == Is(t.rowTime)
        || !(e.meta.rowTime.Is? && e.meta.rowTime.value.Canonical?))
  }

  /** And says it all, for this key, row, database and storage. */
  predicate Proves(e: Event, t: Target, context: Context, bytes: int) {
    && Speaks(e, t) && e.id != 0 && bytes > 0
    && e.meta.version == Is(1) && e.meta.bytes == Is(bytes) && e.meta.database == Is(context.database)
    && e.meta.origin == Is(context.origin) && e.meta.key == Is(Sha(t.key)) && e.meta.rowTime == Is(t.rowTime)
  }

  /** Some release in the makerspace names the debit. */
  predicate Named(log: seq<Event>, space: SpaceId, charge: EventId) {
    exists i :: 0 <= i < |log| && log[i].space == space && log[i].action == Released
                && log[i].meta.Meta? && log[i].meta.charge == Is(charge)
  }

  lemma SpeaksExactly(e: Event, t: Target)
    requires t.rowTime.Canonical?
    ensures Marks(e, t) <==> Speaks(e, t)
  {}

  lemma ProvesExactly(e: Event, t: Target, context: Context, p: Proof)
    requires Removable(t) && Speaks(e, t)
    ensures ParseCharge(e, t, context) == Some(p) <==>
              p.bytes > 0 && Proves(e, t, context, p.bytes) && p == Proof(t, p.bytes, context.database, context.origin, e.id)
  {
    RemovableExactly(t);
  }

  lemma RemovableExactly(t: Target)
    ensures ValidTarget(t) <==> Removable(t)
  {}

  /** The only event of the log that speaks about the document. */
  ghost predicate OnlyVoice(log: seq<Event>, t: Target, i: nat) {
    i < |log| && Speaks(log[i], t) && forall j | 0 <= j < |log| && j != i :: !Speaks(log[j], t)
  }

  lemma {:induction false} NoVoice(log: seq<Event>, t: Target)
    requires t.rowTime.Canonical?
    ensures MarksOf(log, t) == [] <==> forall j | 0 <= j < |log| :: !Speaks(log[j], t)
    decreases |log|
  {
    if log != [] {
      var front := log[..|log| - 1];
      NoVoice(front, t);
      SpeaksExactly(log[|log| - 1], t);
      assert forall j | 0 <= j < |front| :: front[j] == log[j];
    }
  }

  lemma {:induction false} OneVoice(log: seq<Event>, t: Target) returns (i: nat)
    requires t.rowTime.Canonical? && |MarksOf(log, t)| == 1
    ensures OnlyVoice(log, t, i) && MarksOf(log, t)[0] == log[i]
    decreases |log|
  {
    var (front, last) := (log[..|log| - 1], log[|log| - 1]);
    SpeaksExactly(last, t);
    if Marks(last, t) {
      NoVoice(front, t);
      i := |log| - 1;
      assert forall j | 0 <= j < |front| :: front[j] == log[j];
    } else {
      i := OneVoice(front, t);
      forall j | 0 <= j < |log| && j != i ensures !Speaks(log[j], t) {
        if j < |front| { assert front[j] == log[j]; }
      }
    }
  }

  lemma {:induction false} VoiceIsOne(log: seq<Event>, t: Target, i: nat)
    requires t.rowTime.Canonical? && OnlyVoice(log, t, i)
    ensures MarksOf(log, t) == [log[i]]
    decreases |log|
  {
    var (front, last) := (log[..|log| - 1], log[|log| - 1]);
    SpeaksExactly(last, t);
    assert forall j | 0 <= j < |front| :: front[j] == log[j];
    if i == |log| - 1 {
      NoVoice(front, t);
    } else {
      VoiceIsOne(front, t, i);
    }
  }

  /** A debit is proven exactly by the only event that speaks about its document, if it says it all and
      no release in the makerspace names it. */
  lemma ProofExactly(log: seq<Event>, context: Option<Context>, t: Target, p: Proof)
    ensures ProvenCharge(log, context, t) == Some(p) <==>
              && context.Some? && Removable(t)
              && exists i: nat :: OnlyVoice(log, t, i) && Proves(log[i], t, context.value, p.bytes)
                   && p == Proof(t, p.bytes, context.value.database, context.value.origin, log[i].id)
                   && !Named(log, t.space, log[i].id)
  {
    RemovableExactly(t);
    if context.Some? && Removable(t) {
      if |MarksOf(log, t)| == 1 {
        var i := OneVoice(log, t);
        ProvesExactly(log[i], t, context.value, p);
      }
      if i: nat :| OnlyVoice(log, t, i) && Proves(log[i], t, context.value, p.bytes)
                   && p == Proof(t, p.bytes, context.value.database, context.value.origin, log[i].id)
                   && !Named(log, t.space, log[i].id) {
        VoiceIsOne(log, t, i);
        ProvesExactly(log[i], t, context.value, p);
      }
    }
  }

  // ---- The services ----------------------------------------------------------------------------

  /** A charge goes through exactly within the limit, for something, with a context and a document that
      may be charged for; usage grows by the bytes and the log by one event that proves them. */
  lemma ChargedExactly(w: World, step: Step)
    requires step.Charge? && Enabled(w, step)
    ensures var (s, s', t) := (w.store, Next(w, step).store, step.t);
            if t.space in s.usage && s.usage[t.space] + step.bytes <= step.limit && step.bytes > 0 && s.context.Some? && Removable(t) then
              && s'.usage == s.usage[t.space := s.usage[t.space] + step.bytes] && s'.usage[t.space] <= step.limit
              && s'.context == s.context
              && |s'.log| == |s.log| + 1 && s'.log[..|s.log|] == s.log
              && s'.log[|s.log|].id == step.id && Proves(s'.log[|s.log|], t, s.context.value, step.bytes)
              && Next(w, step).debits == w.debits + [Entry(step.id, t, step.bytes, false)]
            else Next(w, step) == w
  {
    RemovableExactly(step.t);
  }

  /** A refund goes through exactly in a hosted deployment, under the verified exclusion, for a proof that
      the log still gives, out of a sufficient balance; usage shrinks by its bytes and the log grows by
      one release that names it. */
  lemma ReleasedExactly(w: World, step: Step)
    requires step.Release? && Enabled(w, step)
    ensures var (s, s', p) := (w.store, Next(w, step).store, step.p);
            if !step.selfHosted && step.verified && p.target.space in s.usage
               && ProvenCharge(s.log, s.context, p.target) == Some(p) && s.usage[p.target.space] >= p.bytes then
              && s'.usage == s.usage[p.target.space := s.usage[p.target.space] - p.bytes] && s'.context == s.context
              && |s'.log| == |s.log| + 1 && s'.log[..|s.log|] == s.log
              && Named(s'.log, p.target.space, p.charge) && !Speaks(s'.log[|s.log|], p.target)
              && Next(w, step).refunds == w.refunds + [p]
            else Next(w, step) == w
  {
    var (s, p) := (w.store, step.p);
    ProofExactly(s.log, s.context, p.target, p);
    if Refundable(s, p) && !step.selfHosted && step.verified {
      var s' := Next(w, step).store;
      assert s'.log[|s.log|].action == Released && s'.log[|s.log|].meta.charge == Is(p.charge);
    }
  }

  /** What everybody else does: a tenant import appends its event without an identity, other events are
      appended as they are, the context is set, and other users' storage is what they say; nothing else
      changes. */
  lemma OthersDo(w: World, step: Step)
    requires Enabled(w, step) && !step.Charge? && !step.Release?
    ensures var (s, w') := (w.store, Next(w, step));
            && w'.debits == w.debits && w'.refunds == w.refunds && w'.home == w.home
            && match step
               case Import(e) =>
                 && w'.others == w.others && w'.store == s.(log := w'.store.log) && w'.ids == w.ids
                 && w'.store.log == s.log + [Event(0, e.space, e.action, e.targetKind, e.targetId, e.meta)]
               case Insert(e) =>
                 w'.others == w.others && w'.store == s.(log := s.log + [e]) && w'.ids == w.ids + {e.id}
               case SetContext(context) =>
                 w'.others == w.others && w'.store == Store(s.log, s.usage, context) && w'.ids == w.ids
               case OtherUse(space, used) =>
                 && w'.store == Store(s.log, s.usage[space := used], s.context) && w'.ids == w.ids
                 && w'.others == w.others[space := w.others[space] + (used - s.usage[space])]
  {}

  /** Charging a document nobody spoke about and refunding it leaves usage as it was, and nothing more
      can be had for it. */
  lemma ChargeThenRelease(w: World, charge: Step, release: Step)
    requires charge.Charge? && Enabled(w, charge) && Removable(charge.t) && w.store.context.Some?
    requires charge.t.space in w.store.usage && w.store.usage[charge.t.space] >= 0
    requires w.store.usage[charge.t.space] + charge.bytes <= charge.limit && charge.bytes > 0
    requires (forall j | 0 <= j < |w.store.log| :: !Speaks(w.store.log[j], charge.t)) && !Named(w.store.log, charge.t.space, charge.id)
    requires release.Release? && release == Release(Proof(charge.t, charge.bytes, w.store.context.value.database, w.store.context.value.origin, charge.id),
                                false, true, release.id)
    requires release.id != charge.id && release.id !in w.ids
    ensures Enabled(Next(w, charge), release)
    ensures var end := Next(Next(w, charge), release);
            && end.store.usage == w.store.usage && end.refunds == w.refunds + [release.p]
            && forall p :: ProvenCharge(end.store.log, end.store.context, charge.t) != Some(p)
  {
    ChargedExactly(w, charge);
    var mid := Next(w, charge);
    var n := |w.store.log|;
    assert OnlyVoice(mid.store.log, charge.t, n) by {
      forall j | 0 <= j < |mid.store.log| && j != n ensures !Speaks(mid.store.log[j], charge.t) {
        assert mid.store.log[j] == mid.store.log[..n][j];
      }
    }
    assert !Named(mid.store.log, charge.t.space, charge.id) by {
      forall i | 0 <= i < n ensures mid.store.log[i] == w.store.log[i] { assert mid.store.log[i] == mid.store.log[..n][i]; }
    }
    ProofExactly(mid.store.log, mid.store.context, charge.t, release.p);
    ReleasedExactly(mid, release);
    var end := Next(mid, release);
    assert end.store.usage == w.store.usage;
    Spent(end.store.log, end.store.context, charge.t, n, charge.id);
  }

  lemma Spent(log: seq<Event>, context: Option<Context>, t: Target, i: nat, charge: EventId)
    requires i < |log| && Speaks(log[i], t) && log[i].id == charge && Named(log, t.space, charge)
    ensures forall p :: ProvenCharge(log, context, t) != Some(p)
  {
    forall p ensures ProvenCharge(log, context, t) != Some(p) {
      ProofExactly(log, context, t, p);
    }
  }
}
