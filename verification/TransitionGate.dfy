/** Admission of a walk-in transition to every tenant its callbacks can write.

    A caller's context records the tenant locks it knows it holds; the database may hold more of
    them, because a lock taken inside a transaction lives until that transaction ends. */
module TransitionGate {
  import opened Common

  type Key = k: nat | 0 < k witness 1   // tenant locks; the unscoped writer's lock is not one
  type UserId = nat

  datatype Admission = Admission(user: UserId, keys: set<Key>)

  datatype Context = Context(
    retained: set<Key>,    // shared locks pinned by connections of their own
    boundary: set<Key>,    // tenant boundaries the caller is inside
    txn: set<Key>,         // locks the caller's own transaction took
    operator: set<Key>,    // exclusive boundary of an operator
    inAtomic: bool,
    admission: Option<Admission>)
  {
    function Recorded(): set<Key> { retained + boundary }

    function Locks(): set<Key> { retained + txn + operator }

    ghost predicate Valid() {
      boundary <= Locks() && (!inAtomic ==> txn == {})
    }
  }

  predicate Ascending(keys: seq<Key>) {
    forall i, j | 0 <= i < j < |keys| :: keys[i] < keys[j]
  }

  /** The keys in ascending order. */
  function Sorted(keys: set<Key>): (r: seq<Key>)
    ensures Ascending(r)
    ensures forall k | k in r :: k in keys
    ensures forall k | k in keys :: k in r
  {
    if keys == {} then []
    else
      var least: Key := MinOf(keys);
      [least] + Sorted(keys - {least})
  }

  predicate OutOfOrder(held: set<Key>, taken: set<Key>) {
    exists n, h | n in taken && h in held :: n < h
  }

  /** The comparison the gate makes: the least new key against the greatest held one. */
  function MaxOf(keys: set<Key>): (greatest: Key)
    requires keys != {}
    ensures greatest in keys && forall k | k in keys :: k <= greatest
  {
    var least: Key := MinOf(keys);
    if keys - {least} == {} then
      assert keys == {least};
      least
    else
      var greatest := MaxOf(keys - {least});
      assert forall k | k in keys :: k == least || k in keys - {least};
      greatest
  }

  lemma GuardMeansOutOfOrder(held: set<Key>, taken: set<Key>)
    ensures (taken != {} && held != {} && MinOf(taken) < MaxOf(held)) <==> OutOfOrder(held, taken)
  {
    if taken != {} && held != {} && MinOf(taken) < MaxOf(held) {
      assert MinOf(taken) in taken && MaxOf(held) in held;
    }
  }

  method BreaksOrder(held: set<Key>, taken: set<Key>) returns (breaks: bool)
    ensures breaks == OutOfOrder(held, taken)
  {
    GuardMeansOutOfOrder(held, taken);
    breaks := taken != {} && held != {} && MinOf(taken) < MaxOf(held);
  }

  // ---- One tenant boundary -------------------------------------------------------------------

  /** Whether entering a boundary asks the database for a lock. */
  predicate Acquires(c: Context, key: Key) {
    key !in c.Recorded()
  }

  function Entered(c: Context, key: Key): Context {
    if key in c.boundary then c
    else if key in c.retained then c.(boundary := c.boundary + {key})
    else if c.inAtomic then c.(txn := c.txn + {key}, boundary := c.boundary + {key})
    else c.(retained := c.retained + {key}, boundary := c.boundary + {key})
  }

  function EnteredAll(c: Context, keys: seq<Key>): Context
    decreases |keys|
  {
    if keys == [] then c else EnteredAll(Entered(c, keys[0]), keys[1..])
  }

  /** The keys asked of the database, in order. */
  function Asked(c: Context, keys: seq<Key>): seq<Key>
    decreases |keys|
  {
    if keys == [] then []
    else (if Acquires(c, keys[0]) then [keys[0]] else []) + Asked(Entered(c, keys[0]), keys[1..])
  }

  lemma {:induction false} EnteredHolds(c: Context, keys: seq<Key>)
    requires c.Valid()
    ensures var d := EnteredAll(c, keys);
            && d.Valid() && d.inAtomic == c.inAtomic && d.admission == c.admission
            && c.Locks() <= d.Locks() && c.Recorded() <= d.Recorded()
            && (forall k | k in keys :: k in d.boundary && k in d.Locks())
    decreases |keys|
  {
    if keys != [] {
      EnteredHolds(Entered(c, keys[0]), keys[1..]);
      EnteredKeeps(Entered(c, keys[0]), keys[1..], keys[0]);
    }
  }

  lemma {:induction false} EnteredKeeps(c: Context, keys: seq<Key>, key: Key)
    requires key in c.boundary
    ensures key in EnteredAll(c, keys).boundary
    decreases |keys|
  {
    if keys != [] { EnteredKeeps(Entered(c, keys[0]), keys[1..], key); }
  }

  lemma {:induction false} AskedSplit(c: Context, front: seq<Key>, rest: seq<Key>)
    ensures EnteredAll(c, front + rest) == EnteredAll(EnteredAll(c, front), rest)
    ensures Asked(c, front + rest) == Asked(c, front) + Asked(EnteredAll(c, front), rest)
    decreases |front|
  {
    if front == [] {
      assert front + rest == rest;
    } else {
      AskedSplit(Entered(c, front[0]), front[1..], rest);
      assert (front + rest)[1..] == front[1..] + rest;
      assert (front + rest)[0] == front[0];
    }
  }

  lemma EnterNext(c: Context, keys: seq<Key>, i: nat)
    requires i < |keys|
    ensures EnteredAll(c, keys[..i + 1]) == Entered(EnteredAll(c, keys[..i]), keys[i])
    ensures Asked(c, keys[..i + 1])
         == Asked(c, keys[..i]) + if Acquires(EnteredAll(c, keys[..i]), keys[i]) then [keys[i]] else []
  {
    AskedSplit(c, keys[..i], [keys[i]]);
    assert keys[..i + 1] == keys[..i] + [keys[i]];
  }

  lemma AscendingCons(head: Key, rest: seq<Key>)
    requires Ascending(rest) && forall k | k in rest :: head < k
    ensures Ascending([head] + rest)
  {
    forall i, j | 0 <= i < j < |[head] + rest| ensures ([head] + rest)[i] < ([head] + rest)[j] {
      assert ([head] + rest)[j] == rest[j - 1] && rest[j - 1] in rest;
    }
  }

  lemma HeadIsLeast(keys: seq<Key>)
    requires Ascending(keys) && keys != []
    ensures Ascending(keys[1..])
    ensures forall k | k in keys[1..] :: keys[0] < k
    ensures forall k :: k in keys <==> k == keys[0] || k in keys[1..]
  {
    assert keys == [keys[0]] + keys[1..];
  }

  /** Going through the keys in order asks for exactly the unrecorded ones, still in order. */
  lemma {:induction false} AskedExactly(c: Context, keys: seq<Key>)
    requires Ascending(keys)
    ensures Ascending(Asked(c, keys))
    ensures forall k :: k in Asked(c, keys) <==> k in keys && k !in c.Recorded()
    decreases |keys|
  {
    if keys != [] {
      HeadIsLeast(keys);
      var rest := Asked(Entered(c, keys[0]), keys[1..]);
      AskedExactly(Entered(c, keys[0]), keys[1..]);
      assert Entered(c, keys[0]).Recorded() == c.Recorded() + {keys[0]};
      assert forall k | k in rest :: keys[0] < k;
      AscendingCons(keys[0], rest);
    }
  }

  // ---- The gate ------------------------------------------------------------------------------

  datatype Entry = Nested | OtherIdentity | Refused | Frozen | Admitted

  function EntryFor(c: Context, user: UserId, keys: set<Key>, frozen: set<Key>): Entry {
    if c.admission.Some? then (if c.admission.value.user == user then Nested else OtherIdentity)
    else if OutOfOrder(c.Recorded(), keys - c.Recorded()) then Refused
    else if keys * frozen != {} then Frozen
    else Admitted
  }

  /** Keys gone through before the first frozen tenant, that tenant's included. */
  function UntilFrozen(keys: seq<Key>, frozen: set<Key>): (gone: seq<Key>)
    ensures |gone| <= |keys| && gone == keys[..|gone|]
    decreases |keys|
  {
    if keys == [] then [] else if keys[0] in frozen then [keys[0]] else [keys[0]] + UntilFrozen(keys[1..], frozen)
  }

  /** What is left when the scopes unwind: everything but the transaction's own locks. */
  function Unwound(c: Context, saved: Context): Context {
    saved.(txn := c.txn)
  }

  function GateEntered(c: Context, user: UserId, keys: set<Key>, frozen: set<Key>): Context {
    match EntryFor(c, user, keys, frozen)
    case Nested => c
    case OtherIdentity => c
    case Refused => c
    case Frozen => Unwound(EnteredAll(c, UntilFrozen(Sorted(keys), frozen)), c)
    case Admitted => EnteredAll(c, Sorted(keys)).(admission := Some(Admission(user, keys)))
  }

  datatype Scope = NoAdmission | Changed | InScope

  function ScopeFor(c: Context, user: UserId, tenants: set<Key>): Scope {
    if c.admission.None? || c.admission.value.user != user then NoAdmission
    else if !(tenants <= c.admission.value.keys) then Changed
    else InScope
  }

  class Caller {
    var context: Context

    constructor (inAtomic: bool)
      ensures context == Context({}, {}, {}, {}, inAtomic, None) && context.Valid()
    {
      context := Context({}, {}, {}, {}, inAtomic, None);
    }

    /** Enter one tenant boundary, reusing a lock the caller already has. */
    method BoundaryTenantWrite(key: Key) returns (asked: bool)
      modifies this
      ensures asked == Acquires(old(context), key)
      ensures context == Entered(old(context), key)
    {
      asked := false;
      if key in context.boundary {
        return;
      }
      if key in context.retained {
      } else if context.inAtomic {
        asked := true;
        context := context.(txn := context.txn + {key});
      } else {
        asked := true;
        context := context.(retained := context.retained + {key});
      }
      context := context.(boundary := context.boundary + {key});
    }

    /** Enter the gate; `asked` is what was newly requested of the database, in order. */
    method EnterGate(user: UserId, tenants: set<Key>, frozen: set<Key>) returns (entry: Entry, asked: seq<Key>)
      modifies this
      ensures entry == EntryFor(old(context), user, tenants, frozen)
      ensures context == GateEntered(old(context), user, tenants, frozen)
      ensures entry.Admitted? ==> asked == Asked(old(context), Sorted(tenants))
      ensures entry.Frozen? ==> asked == Asked(old(context), UntilFrozen(Sorted(tenants), frozen))
      ensures entry.Nested? || entry.OtherIdentity? || entry.Refused? ==> asked == []
    {
      asked := [];
      if context.admission.Some? {
        return (if context.admission.value.user == user then Nested else OtherIdentity), asked;
      }
      var held := context.retained + context.boundary;
      var taken := tenants - held;
      var refused := BreaksOrder(held, taken);
      if refused {
        return Refused, asked;
      }
      var saved := context;
      var open: bool;
      open, asked := EnterTenants(Sorted(tenants), frozen);
      if !open {
        ghost var k :| k in Sorted(tenants) && k in frozen;
        assert k in tenants * frozen;
        context := Unwound(context, saved);
        return Frozen, asked;
      }
      assert forall k | k in tenants :: k !in frozen;
      context := context.(admission := Some(Admission(user, tenants)));
      return Admitted, asked;
    }

    /** Enter boundaries in order until one is found frozen. */
    method EnterTenants(ordered: seq<Key>, frozen: set<Key>) returns (open: bool, asked: seq<Key>)
      modifies this
      ensures open <==> forall k | k in ordered :: k !in frozen
      ensures context == EnteredAll(old(context), UntilFrozen(ordered, frozen))
      ensures asked == Asked(old(context), UntilFrozen(ordered, frozen))
      ensures open ==> UntilFrozen(ordered, frozen) == ordered
    {
      asked := [];
      var i := 0;
      while i < |ordered|
        invariant i <= |ordered|
        invariant forall j | 0 <= j < i :: ordered[j] !in frozen
        invariant context == EnteredAll(old(context), ordered[..i])
        invariant asked == Asked(old(context), ordered[..i])
      {
        EnterNext(old(context), ordered, i);
        var requested := BoundaryTenantWrite(ordered[i]);
        asked := asked + (if requested then [ordered[i]] else []);
        if ordered[i] in frozen {
          FirstFrozen(ordered, frozen, i);
          return false, asked;
        }
        i := i + 1;
      }
      NoneFrozen(ordered, frozen);
      assert ordered[..i] == ordered;
      return true, asked;
    }

    /** Leave a gate entered from `saved`. */
    method LeaveGate(saved: Context)
      modifies this
      ensures context == Unwound(old(context), saved)
    {
      context := saved.(txn := context.txn);
    }

    method AssertScope(user: UserId, tenants: set<Key>) returns (scope: Scope)
      ensures scope == ScopeFor(context, user, tenants)
    {
      if context.admission.None? || context.admission.value.user != user {
        return NoAdmission;
      }
      return if tenants <= context.admission.value.keys then InScope else Changed;
    }
  }

  lemma {:induction false} FirstFrozen(keys: seq<Key>, frozen: set<Key>, i: nat)
    requires i < |keys| && keys[i] in frozen && forall j | 0 <= j < i :: keys[j] !in frozen
    ensures UntilFrozen(keys, frozen) == keys[..i + 1]
    decreases i
  {
    if i > 0 {
      FirstFrozen(keys[1..], frozen, i - 1);
      assert keys[..i + 1] == [keys[0]] + keys[1..][..i];
    }
  }

  lemma {:induction false} NoneFrozen(keys: seq<Key>, frozen: set<Key>)
    requires forall j | 0 <= j < |keys| :: keys[j] !in frozen
    ensures UntilFrozen(keys, frozen) == keys
    decreases |keys|
  {
    if keys != [] { NoneFrozen(keys[1..], frozen); }
  }

  /** Admission asks for exactly the tenants not yet recorded, in ascending order, each above
      every recorded one, and ends holding the lock of every tenant. */
  lemma AdmissionAscends(c: Context, user: UserId, keys: set<Key>, frozen: set<Key>)
    requires c.Valid() && EntryFor(c, user, keys, frozen).Admitted?
    ensures var asked := Asked(c, Sorted(keys));
            && Ascending(asked)
            && (forall k :: k in asked <==> k in keys - c.Recorded())
            && (forall k, h | k in asked && h in c.Recorded() :: h < k)
    ensures GateEntered(c, user, keys, frozen).Valid()
    ensures keys <= GateEntered(c, user, keys, frozen).Locks()
  {
    AskedExactly(c, Sorted(keys));
    EnteredHolds(c, Sorted(keys));
    forall k, h | k in Asked(c, Sorted(keys)) && h in c.Recorded() ensures h < k {
      assert k in keys - c.Recorded();
    }
  }

  lemma HeadIsMember(keys: seq<Key>)
    ensures keys != [] ==> exists k :: k in keys
  {
    if keys != [] { assert keys[0] in keys; }
  }

  /** In ascending order there is only one way to list the same keys. */
  lemma {:induction false} OneAscendingOrder(a: seq<Key>, b: seq<Key>)
    requires Ascending(a) && Ascending(b) && forall k :: k in a <==> k in b
    ensures a == b
    decreases |a|
  {
    HeadIsMember(a);
    HeadIsMember(b);
    if a != [] && b != [] {
      HeadIsLeast(a);
      HeadIsLeast(b);
      assert a[0] in b && b[0] in a;
      forall k ensures k in a[1..] <==> k in b[1..] {
        assert k in a <==> k == a[0] || k in a[1..];
      }
      OneAscendingOrder(a[1..], b[1..]);
    }
  }

  /** What an admission asks for, as a plan: the unrecorded keys in order. */
  lemma PlanIsWhatIsAsked(c: Context, keys: set<Key>)
    ensures Asked(c, Sorted(keys)) == Sorted(keys - c.Recorded())
  {
    AskedExactly(c, Sorted(keys));
    OneAscendingOrder(Asked(c, Sorted(keys)), Sorted(keys - c.Recorded()));
  }

  /** Against the locks the database really holds, the order is kept exactly when none of those
      the caller no longer records lies above a new key. */
  lemma OrderedAgainstLocks(c: Context, user: UserId, keys: set<Key>, frozen: set<Key>)
    requires c.Valid() && EntryFor(c, user, keys, frozen).Admitted?
    ensures (forall k, h | k in Asked(c, Sorted(keys)) && k !in c.Locks() && h in c.Locks() :: h < k)
       <==> !OutOfOrder(c.Locks() - c.Recorded(), keys - c.Locks())
  {
    AdmissionAscends(c, user, keys, frozen);
    var asked := Asked(c, Sorted(keys));
    if !OutOfOrder(c.Locks() - c.Recorded(), keys - c.Locks()) {
      forall k, h | k in asked && k !in c.Locks() && h in c.Locks() ensures h < k {
        assert k in keys - c.Locks();
        if h !in c.Recorded() { assert h in c.Locks() - c.Recorded(); }
      }
    } else {
      var k, h :| k in keys - c.Locks() && h in c.Locks() - c.Recorded() && k < h;
      assert k in keys - c.Recorded() && k in asked;
    }
  }

  /** Outside any transaction that is always so. */
  lemma OutsideTransactionsOrdered(c: Context)
    requires c.Valid() && !c.inAtomic && c.operator <= c.boundary
    ensures c.Locks() - c.Recorded() == {}
  {}

  /** A nested entry takes nothing, and after a passed scope check every tenant the person has is
      one whose lock is held. */
  lemma ScopeIsLocked(c: Context, user: UserId, keys: set<Key>, frozen: set<Key>, tenants: set<Key>)
    requires c.Valid() && EntryFor(c, user, keys, frozen).Admitted?
    ensures var inside := GateEntered(c, user, keys, frozen);
            && (forall more, frozen' :: GateEntered(inside, user, more, frozen') == inside)
            && (ScopeFor(inside, user, tenants).InScope? <==> tenants <= keys)
            && (ScopeFor(inside, user, tenants).InScope? ==> tenants <= inside.Locks())
  {
    EnteredHolds(c, Sorted(keys));
  }
}

/** Any number of callers competing for tenant locks, with PostgreSQL's queueing: a request waits
    for conflicting holders and for conflicting requests queued before it. */
module GateSystem {
  import opened Common
  import opened TransitionGate

  type Pid = nat

  datatype Mode = Shared | Exclusive

  /** `plan` is what the caller still has to request; `ticket` its place in the queue for plan[0]. */
  datatype Thread = Thread(locks: set<Key>, recorded: set<Key>, exclusive: set<Key>,
                           plan: seq<Key>, mode: Mode, ticket: Option<nat>)

  datatype System = System(threads: map<Pid, Thread>, tickets: nat)

  datatype Step =
    | Arrive(p: Pid)
    | Enter(p: Pid, keys: set<Key>)
    | EnterExclusive(p: Pid, key: Key)
    | Ask(p: Pid)
    | Reuse(p: Pid)   // a lock the transaction already holds is granted without queueing
    | Grant(p: Pid)
    | Abandon(p: Pid)
    | Leave(p: Pid, left: set<Key>, inTransaction: bool)
    | Commit(p: Pid)

  predicate Waiting(w: System, p: Pid) {
    p in w.threads && w.threads[p].ticket.Some? && w.threads[p].plan != []
  }

  predicate Conflicts(a: Mode, b: Mode) {
    a.Exclusive? || b.Exclusive?
  }

  function HeldAs(t: Thread, key: Key): Mode {
    if key in t.exclusive then Exclusive else Shared
  }

  /** p cannot be granted before q moves. */
  predicate Blocks(w: System, q: Pid, p: Pid) {
    && Waiting(w, p) && q in w.threads && q != p
    && var key := w.threads[p].plan[0];
       var mode := w.threads[p].mode;
       || (key in w.threads[q].locks && Conflicts(mode, HeldAs(w.threads[q], key)))
       || (Waiting(w, q) && w.threads[q].plan[0] == key
           && w.threads[q].ticket.value < w.threads[p].ticket.value && Conflicts(mode, w.threads[q].mode))
  }

  ghost predicate Enabled(w: System, step: Step) {
    match step
    case Arrive(p) => p !in w.threads
    case Enter(p, keys) =>
      p in w.threads && w.threads[p].plan == [] && !OutOfOrder(w.threads[p].recorded, keys - w.threads[p].recorded)
    case EnterExclusive(p, key) => p in w.threads && w.threads[p].plan == [] && w.threads[p].locks == {}
    case Ask(p) =>
      p in w.threads && w.threads[p].plan != [] && w.threads[p].ticket.None? && w.threads[p].plan[0] !in w.threads[p].locks
    case Reuse(p) =>
      p in w.threads && w.threads[p].plan != [] && w.threads[p].ticket.None? && w.threads[p].plan[0] in w.threads[p].locks
    case Grant(p) => Waiting(w, p) && forall q :: !Blocks(w, q, p)
    case Abandon(p) => p in w.threads
    case Leave(p, _, _) => p in w.threads && w.threads[p].plan == []
    case Commit(p) => p in w.threads && w.threads[p].plan == []
  }

  function Moved(w: System, p: Pid, t: Thread): System {
    w.(threads := w.threads[p := t])
  }

  ghost function Next(w: System, step: Step): System
    requires Enabled(w, step)
  {
    match step
    case Arrive(p) => Moved(w, p, Thread({}, {}, {}, [], Shared, None))
    case Enter(p, keys) =>
      var t := w.threads[p];
      Moved(w, p, t.(plan := Sorted(keys - t.recorded), mode := Shared))
    case EnterExclusive(p, key) => Moved(w, p, w.threads[p].(plan := [key], mode := Exclusive))
    case Ask(p) => Moved(w, p, w.threads[p].(ticket := Some(w.tickets))).(tickets := w.tickets + 1)
    case Reuse(p) =>
      var t := w.threads[p];
      Moved(w, p, t.(recorded := t.recorded + {t.plan[0]}, plan := t.plan[1..]))
    case Grant(p) =>
      var t := w.threads[p];
      var key := t.plan[0];
      Moved(w, p, t.(locks := t.locks + {key}, recorded := t.recorded + {key},
                     exclusive := if t.mode.Exclusive? then t.exclusive + {key} else t.exclusive,
                     plan := t.plan[1..], ticket := None))
    case Abandon(p) => Moved(w, p, w.threads[p].(plan := [], ticket := None))
    case Leave(p, left, inTransaction) =>
      var t := w.threads[p];
      var kept := if inTransaction then t.locks else t.locks - left;
      Moved(w, p, t.(recorded := t.recorded - left, locks := kept, exclusive := t.exclusive * kept))
    case Commit(p) =>
      var t := w.threads[p];
      Moved(w, p, t.(locks := t.recorded, exclusive := t.exclusive * t.recorded))
  }

  /** The caller's obligation: a transaction that already left a tenant behind does not come back
      for a lower one. Entering only outside transactions, as documented, satisfies it. */
  ghost predicate Orderly(w: System, step: Step) {
    step.Enter? && step.p in w.threads ==>
      var t := w.threads[step.p];
      !OutOfOrder(t.locks - t.recorded, step.keys - t.locks)
  }

  ghost predicate Run(w: System, steps: seq<Step>)
    decreases |steps|
  {
    steps == [] || (Enabled(w, steps[0]) && Run(Next(w, steps[0]), steps[1..]))
  }

  ghost predicate OrderlyRun(w: System, steps: seq<Step>)
    decreases |steps|
  {
    steps == [] || (Enabled(w, steps[0]) && Orderly(w, steps[0]) && OrderlyRun(Next(w, steps[0]), steps[1..]))
  }

  ghost function End(w: System, steps: seq<Step>): System
    requires Run(w, steps)
    decreases |steps|
  {
    if steps == [] then w else End(Next(w, steps[0]), steps[1..])
  }

  const Empty: System := System(map[], 0)

  ghost predicate ThreadInv(t: Thread, tickets: nat) {
    && Ascending(t.plan)
    && t.recorded <= t.locks
    && (t.ticket.Some? ==> t.ticket.value < tickets)
    && (forall k, h | k in t.plan && k !in t.locks && h in t.locks :: h < k)
    && (t.ticket.Some? ==> t.plan != [] && t.plan[0] !in t.locks)
  }

  ghost predicate Inv(w: System) {
    && (forall p | p in w.threads :: ThreadInv(w.threads[p], w.tickets))
    && (forall p, q | Waiting(w, p) && Waiting(w, q) && w.threads[p].ticket == w.threads[q].ticket :: p == q)
  }

  lemma StepKeeps(w: System, step: Step)
    requires Inv(w) && Enabled(w, step) && Orderly(w, step)
    ensures Inv(Next(w, step))
  {
    var w' := Next(w, step);
    match step
    case Enter(p, keys) =>
      var t := w.threads[p];
      assert ThreadInv(t, w.tickets);
      forall k, h | k in Sorted(keys - t.recorded) && k !in t.locks && h in t.locks ensures h < k {
        assert k in keys - t.recorded && k in keys - t.locks;
        if h !in t.recorded { assert h in t.locks - t.recorded; }
      }
    case Grant(p) => PlanShrinks(w.threads[p], w.tickets);
    case Reuse(p) => PlanShrinks(w.threads[p], w.tickets);
    case _ =>
  }

  lemma PlanShrinks(t: Thread, tickets: nat)
    requires ThreadInv(t, tickets) && t.plan != []
    ensures var key := t.plan[0];
            var tail := t.plan[1..];
            && Ascending(tail)
            && (forall k | k in tail :: k in t.plan && key < k)
  {
    assert forall k | k in t.plan[1..] :: exists i :: 0 < i < |t.plan| && t.plan[i] == k;
  }

  lemma {:induction false} RunKeeps(w: System, steps: seq<Step>)
    requires Inv(w) && OrderlyRun(w, steps)
    ensures Run(w, steps) && Inv(End(w, steps))
    decreases |steps|
  {
    if steps != [] {
      StepKeeps(w, steps[0]);
      RunKeeps(Next(w, steps[0]), steps[1..]);
    }
  }

  /** Waiting threads in the order of what they wait for; within one queue, latest first. */
  predicate Below(w: System, p: Pid, q: Pid) {
    && Waiting(w, p) && Waiting(w, q)
    && var a, b := w.threads[p], w.threads[q];
       a.plan[0] < b.plan[0] || (a.plan[0] == b.plan[0] && b.ticket.value < a.ticket.value)
  }

  /** Whoever blocks a waiting thread, if waiting itself, waits for something later in the order. */
  lemma BlockersAreAbove(w: System, p: Pid, q: Pid)
    requires Inv(w) && Blocks(w, q, p) && Waiting(w, q)
    ensures Below(w, p, q)
  {
    var a, b := w.threads[p], w.threads[q];
    assert ThreadInv(b, w.tickets);
    if a.plan[0] in b.locks {
      assert b.plan[0] in b.plan;
    }
  }

  lemma {:induction false} PathsAscend(w: System, path: seq<Pid>)
    requires Inv(w) && |path| >= 2 && Waiting(w, path[|path| - 1])
    requires forall i | 0 <= i < |path| - 1 :: Blocks(w, path[i + 1], path[i])
    ensures Below(w, path[0], path[|path| - 1])
    decreases |path|
  {
    assert Blocks(w, path[1], path[0]);
    if |path| == 2 {
      BlockersAreAbove(w, path[0], path[1]);
    } else {
      var rest := path[1..];
      forall i | 0 <= i < |rest| - 1 ensures Blocks(w, rest[i + 1], rest[i]) {
        assert Blocks(w, path[i + 1 + 1], path[i + 1]);
      }
      assert Blocks(w, rest[1], rest[0]);
      PathsAscend(w, rest);
      BlockersAreAbove(w, path[0], path[1]);
    }
  }

  /** A closed chain of threads each blocked by the next. */
  ghost predicate WaitCycle(w: System, path: seq<Pid>) {
    && |path| >= 2 && path[0] == path[|path| - 1]
    && forall i | 0 <= i < |path| - 1 :: Blocks(w, path[i + 1], path[i])
  }

  /** However many callers there are, they never wait for each other in a circle. */
  lemma NoWaitCycle(steps: seq<Step>, path: seq<Pid>)
    requires OrderlyRun(Empty, steps)
    ensures Run(Empty, steps) && !WaitCycle(End(Empty, steps), path)
  {
    RunKeeps(Empty, steps);
    NoCycleIn(End(Empty, steps), path);
  }

  lemma NoCycleIn(w: System, path: seq<Pid>)
    requires Inv(w)
    ensures !WaitCycle(w, path)
  {
    if WaitCycle(w, path) {
      assert Blocks(w, path[1], path[0]);
      PathsAscend(w, path);
    }
  }

  function Above(w: System, p: Pid): set<Pid> {
    set q | q in w.threads && Below(w, p, q)
  }

  lemma {:induction false} TopWaiter(w: System, p: Pid) returns (top: Pid)
    requires Inv(w) && Waiting(w, p)
    ensures Waiting(w, top) && forall q | Blocks(w, q, top) :: !Waiting(w, q)
    decreases |Above(w, p)|
  {
    if q :| Blocks(w, q, p) && Waiting(w, q) {
      BlockersAreAbove(w, p, q);
      assert q in Above(w, p) && q !in Above(w, q);
      assert Above(w, q) <= Above(w, p);
      SubsetSize(Above(w, q), Above(w, p) - {q});
      top := TopWaiter(w, q);
    } else {
      top := p;
    }
  }

  /** While anyone waits, some waiting thread is held up by running threads only. */
  lemma SomeWaiterDependsOnRunnersOnly(steps: seq<Step>, p: Pid) returns (top: Pid)
    requires OrderlyRun(Empty, steps)
    requires Run(Empty, steps) && Waiting(End(Empty, steps), p)
    ensures var w := End(Empty, steps);
            Waiting(w, top) && forall q | Blocks(w, q, top) :: !Waiting(w, q)
  {
    RunKeeps(Empty, steps);
    top := TopWaiter(End(Empty, steps), p);
  }

  /** Nothing is held that is not recorded. */
  predicate Tight(w: System) {
    forall p | p in w.threads :: w.threads[p].locks == w.threads[p].recorded
  }

  /** Callers that enter and leave tenants outside transactions meet the obligation by themselves. */
  lemma {:induction false} OutsideTransactionsIsOrderly(w: System, steps: seq<Step>)
    requires Tight(w) && Run(w, steps)
    requires forall i | 0 <= i < |steps| :: steps[i].Leave? ==> !steps[i].inTransaction
    ensures OrderlyRun(w, steps)
    decreases |steps|
  {
    if steps != [] {
      OutsideTransactionsIsOrderly(Next(w, steps[0]), steps[1..]);
    }
  }

  // ---- Without the obligation ------------------------------------------------------------------

  /** Reached by steps that all meet the obligation. */
  ghost predicate Reaches(w: System, w': System) {
    exists steps :: OrderlyRun(w, steps) && Run(w, steps) && End(w, steps) == w'
  }

  lemma {:induction false} OrderlyConcat(w: System, front: seq<Step>, rest: seq<Step>)
    requires OrderlyRun(w, front) && Run(w, front) && OrderlyRun(End(w, front), rest) && Run(End(w, front), rest)
    ensures OrderlyRun(w, front + rest) && Run(w, front + rest) && End(w, front + rest) == End(End(w, front), rest)
    decreases |front|
  {
    if front == [] {
      assert front + rest == rest;
    } else {
      OrderlyConcat(Next(w, front[0]), front[1..], rest);
      assert (front + rest)[1..] == front[1..] + rest;
    }
  }

  lemma Stays(w: System)
    ensures Reaches(w, w)
  {
    assert OrderlyRun(w, []) && Run(w, []) && End(w, []) == w;
  }

  lemma Then(w0: System, w: System, step: Step) returns (w': System)
    requires Reaches(w0, w) && Enabled(w, step) && Orderly(w, step)
    ensures Reaches(w0, w') && w' == Next(w, step)
  {
    w' := Next(w, step);
    var steps :| OrderlyRun(w0, steps) && Run(w0, steps) && End(w0, steps) == w;
    assert [step][1..] == [];
    assert Run(w', []) && OrderlyRun(w', []) && End(w', []) == w';
    assert Run(w, [step]) && OrderlyRun(w, [step]) && End(w, [step]) == w';
    OrderlyConcat(w0, steps, [step]);
  }

  predicate Idle(t: Thread) {
    t.locks == {} && t.recorded == {} && t.plan == [] && t.ticket.None?
  }

  /** Everyone else gives up, leaves every tenant and ends the transaction. */
  lemma {:induction false} Clear(w0: System, w: System, todo: set<Pid>) returns (w': System)
    requires Reaches(w0, w) && todo <= w.threads.Keys
    ensures Reaches(w0, w') && w'.threads.Keys == w.threads.Keys
    ensures forall q | q in w.threads :: if q in todo then Idle(w'.threads[q]) else w'.threads[q] == w.threads[q]
    decreases |todo|
  {
    if todo == {} {
      w' := w;
    } else {
      var q :| q in todo;
      w' := Then(w0, w, Abandon(q));
      w' := Then(w0, w', Leave(q, w'.threads[q].recorded, true));
      w' := Then(w0, w', Commit(q));
      w' := Clear(w0, w', todo - {q});
    }
  }

  /** A caller goes through locks it still has up to the first it lacks. */
  lemma {:induction false} ReuseUpTo(w0: System, w: System, p: Pid, key: Key) returns (w': System)
    requires Reaches(w0, w) && p in w.threads && w.threads[p].ticket.None? && Ascending(w.threads[p].plan)
    requires key in w.threads[p].plan && forall k | k in w.threads[p].plan && k < key :: k in w.threads[p].locks
    ensures Reaches(w0, w') && w'.threads.Keys == w.threads.Keys && w'.tickets == w.tickets
    ensures forall q | q in w.threads && q != p :: w'.threads[q] == w.threads[q]
    ensures var t, t' := w.threads[p], w'.threads[p];
            t'.plan != [] && t'.plan[0] == key && t'.ticket.None? && t'.locks == t.locks && t'.mode == t.mode
    decreases |w.threads[p].plan|
  {
    var t := w.threads[p];
    if t.plan[0] == key {
      w' := w;
    } else {
      HeadIsLeast(t.plan);
      w' := Then(w0, w, Reuse(p));
      w' := ReuseUpTo(w0, w', p, key);
    }
  }

  /** A caller nobody competes with gets the next key of its plan. */
  lemma Take(w0: System, w: System, p: Pid) returns (w': System)
    requires Reaches(w0, w) && p in w.threads
    requires var t := w.threads[p]; t.plan != [] && t.ticket.None? && t.plan[0] !in t.locks && t.mode.Shared?
    requires forall q | q in w.threads && q != p :: w.threads[p].plan[0] !in w.threads[q].locks && w.threads[q].ticket.None?
    ensures Reaches(w0, w') && w'.threads.Keys == w.threads.Keys
    ensures forall q | q in w.threads && q != p :: w'.threads[q] == w.threads[q]
    ensures var t := w.threads[p];
            w'.threads[p] == t.(locks := t.locks + {t.plan[0]}, recorded := t.recorded + {t.plan[0]}, plan := t.plan[1..])
  {
    var asked := Then(w0, w, Ask(p));
    w' := Then(w0, asked, Grant(p));
  }

  /** A fresh caller of two free tenants, stopped after the first. */
  lemma HalfWay(w0: System, w: System, a: Pid, key: Key, higher: Key) returns (w': System)
    requires Reaches(w0, w) && a !in w.threads && key < higher
    requires forall q | q in w.threads :: key !in w.threads[q].locks && w.threads[q].ticket.None?
    ensures Reaches(w0, w') && w'.threads.Keys == w.threads.Keys + {a}
    ensures forall q | q in w.threads :: w'.threads[q] == w.threads[q]
    ensures w'.threads[a] == Thread({key}, {key}, {}, [higher], Shared, None)
  {
    w' := Then(w0, w, Arrive(a));
    w' := Then(w0, w', Enter(a, {key, higher}));
    assert {key, higher} - {} == {key, higher};
    TwoSorted(key, higher);
    w' := Take(w0, w', a);
  }

  lemma TwoSorted(key: Key, higher: Key)
    requires key < higher
    ensures Sorted({key, higher}) == [key, higher]
  {
    OneAscendingOrder(Sorted({key, higher}), [key, higher]);
  }

  /** A fresh operator queueing for a tenant. */
  lemma Queue(w0: System, w: System, x: Pid, key: Key) returns (w': System)
    requires Reaches(w0, w) && x !in w.threads
    ensures Reaches(w0, w') && w'.threads.Keys == w.threads.Keys + {x} && w'.tickets == w.tickets + 1
    ensures forall q | q in w.threads :: w'.threads[q] == w.threads[q]
    ensures w'.threads[x] == Thread({}, {}, {}, [key], Exclusive, Some(w.tickets))
  {
    w' := Then(w0, w, Arrive(x));
    w' := Then(w0, w', EnterExclusive(x, key));
    w' := Then(w0, w', Ask(x));
  }

  lemma {:induction false} PidBound(pids: set<Pid>) returns (n: nat)
    ensures forall p | p in pids :: p < n
    decreases |pids|
  {
    if pids == {} {
      n := 0;
    } else {
      var p :| p in pids;
      var m := PidBound(pids - {p});
      n := if m <= p then p + 1 else m;
      forall q | q in pids ensures q < n {
        if q != p { assert q in pids - {p}; }
      }
    }
  }

  /** p holds `higher` and is about to ask for `key`, and nobody else holds or wants anything: a caller
      of both tenants and an operator for each close the circle. */
  lemma CloseCircle(w0: System, w: System, p: Pid, key: Key, higher: Key) returns (w': System, path: seq<Pid>)
    requires Reaches(w0, w) && p in w.threads && key < higher
    requires forall q | q in w.threads && q != p :: Idle(w.threads[q])
    requires var t := w.threads[p];
             && t.plan != [] && t.plan[0] == key && t.ticket.None? && t.mode.Shared?
             && key !in t.locks && higher in t.locks
    ensures Reaches(w0, w') && WaitCycle(w', path)
  {
    var n := PidBound(w.threads.Keys);
    var a, x, y := n, n + 1, n + 2;
    w' := HalfWay(w0, w, a, key, higher);
    w' := Queue(w0, w', x, key);
    w' := Queue(w0, w', y, higher);
    w' := Then(w0, w', Ask(p));
    w' := Then(w0, w', Ask(a));
    path := [p, x, a, y, p];
    assert Blocks(w', x, p) && Blocks(w', a, x);
    assert Blocks(w', y, a) && Blocks(w', p, y);
  }

  /** What holds with or without the obligation. */
  predicate Sane(w: System) {
    forall p | p in w.threads :: w.threads[p].recorded <= w.threads[p].locks && (w.threads[p].plan == [] ==> w.threads[p].ticket.None?)
  }

  lemma {:induction false} RunIsSane(w: System, steps: seq<Step>)
    requires Sane(w) && Run(w, steps)
    ensures Sane(End(w, steps))
    decreases |steps|
  {
    if steps != [] { RunIsSane(Next(w, steps[0]), steps[1..]); }
  }

  /** Whatever went before, an entry that breaks the obligation can be followed, by callers that keep
      it, by a wait cycle. */
  lemma BreachCanDeadlock(steps: seq<Step>, p: Pid, keys: set<Key>) returns (w': System, path: seq<Pid>)
    requires Run(Empty, steps)
    requires Enabled(End(Empty, steps), Enter(p, keys)) && !Orderly(End(Empty, steps), Enter(p, keys))
    ensures Reaches(Next(End(Empty, steps), Enter(p, keys)), w') && WaitCycle(w', path)
  {
    RunIsSane(Empty, steps);
    var w := End(Empty, steps);
    var t := w.threads[p];
    var w0 := Next(w, Enter(p, keys));
    var n, higher :| n in keys - t.locks && higher in t.locks - t.recorded && n < higher;
    var key: Key := MinOf(keys - t.locks);
    Stays(w0);
    w' := Clear(w0, w0, w0.threads.Keys - {p});
    assert w'.threads[p] == w0.threads[p];
    assert key in keys - t.recorded && key in Sorted(keys - t.recorded);
    forall k | k in Sorted(keys - t.recorded) && k < key ensures k in t.locks {
      assert k in keys && k !in keys - t.locks;
    }
    w' := ReuseUpTo(w0, w', p, key);
    w', path := CloseCircle(w0, w', p, key, higher);
  }

  /** Among callers that kept the obligation so far, an entry keeps it exactly when no wait cycle can
      come of it. */
  lemma OrderlyExactly(steps: seq<Step>, p: Pid, keys: set<Key>)
    requires OrderlyRun(Empty, steps) && Run(Empty, steps) && Enabled(End(Empty, steps), Enter(p, keys))
    ensures var w := End(Empty, steps);
            Orderly(w, Enter(p, keys))
            <==> forall w', path | Reaches(Next(w, Enter(p, keys)), w') :: !WaitCycle(w', path)
  {
    RunKeeps(Empty, steps);
    var w := End(Empty, steps);
    if Orderly(w, Enter(p, keys)) {
      StepKeeps(w, Enter(p, keys));
      var next := Next(w, Enter(p, keys));
      forall w', path | Reaches(next, w') ensures !WaitCycle(w', path) {
        var rest :| OrderlyRun(next, rest) && Run(next, rest) && End(next, rest) == w';
        RunKeeps(next, rest);
        NoCycleIn(w', path);
      }
    } else {
      var w', path := BreachCanDeadlock(steps, p, keys);
    }
  }

  /** Such an entry exists: a transaction that leaves tenant 2 behind may enter the gate for tenant 1. */
  lemma LeftoverLocksCanDeadlock() returns (steps: seq<Step>, w': System, path: seq<Pid>)
    ensures OrderlyRun(Empty, steps) && Run(Empty, steps) && Enabled(End(Empty, steps), Enter(0, {1}))
    ensures Reaches(Next(End(Empty, steps), Enter(0, {1})), w') && WaitCycle(w', path)
  {
    Stays(Empty);
    var w := Then(Empty, Empty, Arrive(0));
    w := Then(Empty, w, Enter(0, {2}));
    assert {2} - {} == {2} && Sorted({2}) == [2] by { OneAscendingOrder(Sorted({2}), [2]); }
    w := Take(Empty, w, 0);
    w := Then(Empty, w, Leave(0, {2}, true));
    steps :| OrderlyRun(Empty, steps) && Run(Empty, steps) && End(Empty, steps) == w;
    assert w.threads[0].recorded == {} && 2 in w.threads[0].locks - w.threads[0].recorded;
    assert 1 in {1} - w.threads[0].locks;
    w', path := BreachCanDeadlock(steps, 0, {1});
  }
}
