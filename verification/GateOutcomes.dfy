/** What an entry of the transition gate leaves behind, and what holds of the tenant locks whatever the
    callers do, with or without the order GateSystem asks of them. */
module GateOutcomes {
  import opened Common
  import opened TransitionGate
  import S = GateSystem

  // ---- One caller ------------------------------------------------------------------------------

  /** The boundaries entered, and where a newly asked lock then lives. */
  predicate EnteredThem(c: Context, c': Context, keys: set<Key>) {
    && c'.boundary == c.boundary + keys
    && c'.retained == (if c.inAtomic then c.retained else c.retained + (keys - c.boundary - c.retained))
    && c'.txn == (if c.inAtomic then c.txn + (keys - c.boundary - c.retained) else c.txn)
    && c'.operator == c.operator && c'.inAtomic == c.inAtomic && c'.admission == c.admission
  }

  lemma OneEntered(c: Context, key: Key)
    ensures EnteredThem(c, Entered(c, key), {key})
  {
    assert key in c.boundary ==> c.boundary + {key} == c.boundary && {key} - c.boundary - c.retained == {};
    assert key in c.retained ==> {key} - c.boundary - c.retained == {};
    assert key !in c.boundary && key !in c.retained ==> {key} - c.boundary - c.retained == {key};
    assert c.retained + {} == c.retained && c.txn + {} == c.txn;
  }

  function Members(keys: seq<Key>): set<Key> {
    set k | k in keys
  }

  lemma {:induction false} AllEntered(c: Context, keys: seq<Key>)
    ensures EnteredThem(c, EnteredAll(c, keys), Members(keys))
    decreases |keys|
  {
    if keys == [] {
      assert c.boundary + Members([]) == c.boundary && Members([]) - c.boundary - c.retained == {};
      assert c.retained + {} == c.retained && c.txn + {} == c.txn;
    } else {
      var (one, rest) := (Entered(c, keys[0]), keys[1..]);
      OneEntered(c, keys[0]);
      AllEntered(one, rest);
      assert keys == [keys[0]] + rest;
      assert Members(keys) == {keys[0]} + Members(rest);
      EnteredTwice(c, one, EnteredAll(one, rest), {keys[0]}, Members(rest));
    }
  }

  lemma EnteredTwice(a: Context, b: Context, c: Context, first: set<Key>, second: set<Key>)
    requires EnteredThem(a, b, first) && EnteredThem(b, c, second)
    ensures EnteredThem(a, c, first + second)
  {
    assert a.boundary + first + second == a.boundary + (first + second);
    var (fst, snd, both) := (first - a.boundary - a.retained, second - b.boundary - b.retained, first + second - a.boundary - a.retained);
    if a.inAtomic {
      assert a.txn + fst + snd == a.txn + both by {
        forall k | k in both ensures k in fst || k in snd {}
        forall k | k in snd ensures k in both {}
      }
    } else {
      assert a.retained + fst + snd == a.retained + both by {
        forall k | k in both ensures k in fst || k in snd || k in a.retained {}
        forall k | k in snd ensures k in both {}
      }
    }
  }

  /** The first frozen tenant in order: the tenants up to it are gone through. */
  ghost predicate UpToFirstFrozen(keys: set<Key>, frozen: set<Key>, gone: set<Key>) {
    exists f :: f in keys && f in frozen && (forall k | k in keys && k in frozen :: f <= k)
                && forall k :: k in gone <==> k in keys && k <= f
  }

  lemma {:induction false} GoneThrough(keys: seq<Key>, frozen: set<Key>, f: Key)
    requires Ascending(keys) && f in keys && f in frozen && forall k | k in keys && k in frozen :: f <= k
    ensures forall k :: k in Members(UntilFrozen(keys, frozen)) <==> k in keys && k <= f
    decreases |keys|
  {
    HeadIsLeast(keys);
    if keys[0] in frozen {
      assert keys[0] == f;
    } else {
      GoneThrough(keys[1..], frozen, f);
      var rest := UntilFrozen(keys[1..], frozen);
      assert forall k :: k in [keys[0]] + rest <==> k == keys[0] || k in rest;
      assert forall k :: k in Members(rest) <==> k in rest;
    }
  }

  /** Some unrecorded tenant lies below a recorded one. */
  ghost predicate OutOfTurn(c: Context, keys: set<Key>) {
    exists n, h :: n in keys && n !in c.retained && n !in c.boundary && (h in c.retained || h in c.boundary) && n < h
  }

  ghost predicate SomeFrozen(keys: set<Key>, frozen: set<Key>) {
    exists k :: k in keys && k in frozen
  }

  /** Every entry of the gate: nested for the same person, refused for another, refused out of turn,
      stopped by a frozen tenant, and admitted otherwise. */
  lemma EntryExactly(c: Context, user: UserId, keys: set<Key>, frozen: set<Key>)
    ensures EntryFor(c, user, keys, frozen) ==
              if c.admission.Some? && c.admission.value.user == user then Nested
              else if c.admission.Some? then OtherIdentity
              else if OutOfTurn(c, keys) then Refused
              else if SomeFrozen(keys, frozen) then Frozen
              else Admitted
  {
    assert OutOfOrder(c.Recorded(), keys - c.Recorded()) <==> OutOfTurn(c, keys) by {
      if OutOfTurn(c, keys) {
        var n, h :| n in keys && n !in c.retained && n !in c.boundary && (h in c.retained || h in c.boundary) && n < h;
        assert n in keys - c.Recorded() && h in c.Recorded();
      }
    }
    assert keys * frozen != {} <==> SomeFrozen(keys, frozen) by {
      if k :| k in keys && k in frozen { assert k in keys * frozen; }
    }
  }

  /** What a frozen tenant leaves: the locks a transaction took on the way, and nothing else. */
  ghost predicate Stopped(c: Context, c': Context, keys: set<Key>, frozen: set<Key>) {
    if c.inAtomic then
      exists gone: set<Key> :: UpToFirstFrozen(keys, frozen, gone) && c' == c.(txn := c.txn + (gone - c.boundary - c.retained))
    else c' == c
  }

  /** What each entry leaves: a nested or refused one nothing, a stopped one the transaction's locks, and
      an admitted one every tenant entered and the admission recorded. */
  lemma EntryLeaves(c: Context, user: UserId, keys: set<Key>, frozen: set<Key>)
    ensures var c' := GateEntered(c, user, keys, frozen);
            match EntryFor(c, user, keys, frozen)
            case Frozen => Stopped(c, c', keys, frozen)
            case Admitted => EnteredThem(c, c'.(admission := None), keys) && c'.admission == Some(Admission(user, keys))
            case _ => c' == c
  {
    match EntryFor(c, user, keys, frozen)
    case Frozen => FrozenLeaves(c, user, keys, frozen);
    case Admitted =>
      AllEntered(c, Sorted(keys));
      assert Members(Sorted(keys)) == keys;
    case _ =>
  }

  lemma FrozenLeaves(c: Context, user: UserId, keys: set<Key>, frozen: set<Key>)
    requires EntryFor(c, user, keys, frozen) == Frozen
    ensures Stopped(c, GateEntered(c, user, keys, frozen), keys, frozen)
  {
    var (order, f: Key) := (Sorted(keys), MinOf(keys * frozen));
    assert f in keys * frozen;
    forall k | k in order && k in frozen ensures f <= k { assert k in keys * frozen; }
    GoneThrough(order, frozen, f);
    AllEntered(c, UntilFrozen(order, frozen));
    var gone := Members(UntilFrozen(order, frozen));
    forall k | k in keys && k in frozen ensures f <= k { assert k in keys * frozen; }
    assert UpToFirstFrozen(keys, frozen, gone);
  }

  /** Leaving what was entered restores the context, but for locks that live until the transaction ends;
      outside a transaction it restores it entirely. */
  lemma LeavingRestores(c: Context, user: UserId, keys: set<Key>, frozen: set<Key>)
    requires EntryFor(c, user, keys, frozen) == Admitted
    ensures var back := Unwound(GateEntered(c, user, keys, frozen), c);
            && back.(txn := c.txn) == c
            && back.txn == (if c.inAtomic then c.txn + (keys - c.boundary - c.retained) else c.txn)
  {
    AllEntered(c, Sorted(keys));
    assert Members(Sorted(keys)) == keys;
  }

  /** A scope check passes exactly for the admitted person and tenants. */
  lemma ScopeExactly(c: Context, user: UserId, tenants: set<Key>)
    ensures var mine := c.admission.Some? && c.admission.value.user == user;
            ScopeFor(c, user, tenants) ==
              if !mine then NoAdmission
              else if forall k | k in tenants :: k in c.admission.value.keys then InScope else Changed
  {}

  // ---- The locks -------------------------------------------------------------------------------

  /** Nobody holds a lock that another holds exclusively. */
  ghost predicate Excluded(w: S.System) {
    forall p, q, key | p in w.threads && q in w.threads && p != q && key in w.threads[p].locks && key in w.threads[q].locks ::
      key !in w.threads[p].exclusive
  }

  /** What is held exclusively is held, and whoever waits has not got the lock. */
  predicate Held(t: S.Thread) {
    && t.exclusive <= t.locks && t.recorded <= t.locks
    && (t.plan == [] ==> t.ticket.None?) && (t.ticket.Some? && t.plan != [] ==> t.plan[0] !in t.locks)
  }

  ghost predicate LocksInv(w: S.System) {
    Excluded(w) && forall p | p in w.threads :: Held(w.threads[p])
  }

  lemma GrantExcludes(w: S.System, p: S.Pid)
    requires LocksInv(w) && S.Enabled(w, S.Grant(p))
    ensures LocksInv(S.Next(w, S.Grant(p)))
  {
    var (w', key) := (S.Next(w, S.Grant(p)), w.threads[p].plan[0]);
    forall q | q in w.threads && q != p && key in w.threads[q].locks
      ensures key !in w.threads[q].exclusive && w.threads[p].mode == S.Shared
    {
      assert !S.Blocks(w, q, p);
    }
    assert forall q | q in w.threads && q != p :: w'.threads[q] == w.threads[q];
  }

  lemma StepExcludes(w: S.System, step: S.Step)
    requires LocksInv(w) && S.Enabled(w, step)
    ensures LocksInv(S.Next(w, step))
  {
    match step
    case Grant(p) => GrantExcludes(w, p);
    case Arrive(_) => QuietExcludes(w, step);
    case Enter(_, _) => QuietExcludes(w, step);
    case EnterExclusive(_, _) => QuietExcludes(w, step);
    case Ask(_) => QuietExcludes(w, step);
    case Reuse(_) => QuietExcludes(w, step);
    case Abandon(_) => QuietExcludes(w, step);
    case _ => LessExcludes(w, step);
  }

  lemma QuietExcludes(w: S.System, step: S.Step)
    requires LocksInv(w) && S.Enabled(w, step) && !step.Grant? && !step.Leave? && !step.Commit?
    ensures LocksInv(S.Next(w, step))
  {}

  lemma LessExcludes(w: S.System, step: S.Step)
    requires LocksInv(w) && S.Enabled(w, step) && (step.Leave? || step.Commit?)
    ensures LocksInv(S.Next(w, step))
  {}

  lemma {:induction false} RunExcludes(w: S.System, steps: seq<S.Step>)
    requires LocksInv(w) && S.Run(w, steps)
    ensures LocksInv(S.End(w, steps))
    decreases |steps|
  {
    if steps != [] {
      StepExcludes(w, steps[0]);
      RunExcludes(S.Next(w, steps[0]), steps[1..]);
    }
  }

  /** In every reachable state, whatever the callers do, a lock one caller holds exclusively is held by
      nobody else, and a caller records only what it holds. */
  lemma LocksAreExclusive(steps: seq<S.Step>, p: S.Pid, q: S.Pid, key: Key)
    requires S.Run(S.Empty, steps)
    ensures var w := S.End(S.Empty, steps);
            && (p in w.threads ==> w.threads[p].recorded <= w.threads[p].locks)
            && (p in w.threads && q in w.threads && p != q && key in w.threads[p].exclusive ==> key !in w.threads[q].locks)
  {
    RunExcludes(S.Empty, steps);
  }

  /** A waiting caller may be granted exactly when nobody holds the lock in a conflicting way and nobody
      who asked for it earlier, in a conflicting way, still waits. */
  lemma GrantedExactly(steps: seq<S.Step>, p: S.Pid)
    requires S.Run(S.Empty, steps) && S.Waiting(S.End(S.Empty, steps), p)
    ensures var w := S.End(S.Empty, steps);
            var (me, key) := (w.threads[p], w.threads[p].plan[0]);
            && key !in me.locks
            && (S.Enabled(w, S.Grant(p)) <==>
                  && (forall q | q in w.threads && key in w.threads[q].locks ::
                        me.mode == S.Shared && key !in w.threads[q].exclusive)
                  && (forall q | q in w.threads && q != p && S.Waiting(w, q) && w.threads[q].plan[0] == key
                                 && w.threads[q].ticket.value < me.ticket.value ::
                        me.mode == S.Shared && w.threads[q].mode == S.Shared))
  {
    RunExcludes(S.Empty, steps);
    var w := S.End(S.Empty, steps);
    var (me, key) := (w.threads[p], w.threads[p].plan[0]);
    if S.Enabled(w, S.Grant(p)) {
      forall q | q in w.threads && key in w.threads[q].locks ensures me.mode == S.Shared && key !in w.threads[q].exclusive {
        assert !S.Blocks(w, q, p);
      }
      forall q | q in w.threads && q != p && S.Waiting(w, q) && w.threads[q].plan[0] == key && w.threads[q].ticket.value < me.ticket.value
        ensures me.mode == S.Shared && w.threads[q].mode == S.Shared
      {
        assert !S.Blocks(w, q, p);
      }
    }
  }

  /** A grant gives exactly the next lock of the caller's plan, in the mode it asked for, and touches
      nobody else. */
  lemma GrantTakes(steps: seq<S.Step>, p: S.Pid)
    requires S.Run(S.Empty, steps) && S.Enabled(S.End(S.Empty, steps), S.Grant(p))
    ensures var (w, w') := (S.End(S.Empty, steps), S.Next(S.End(S.Empty, steps), S.Grant(p)));
            var (t, t', key) := (w.threads[p], w'.threads[p], w.threads[p].plan[0]);
            && t'.locks == t.locks + {key} && t'.recorded == t.recorded + {key} && t'.plan == t.plan[1..] && t'.ticket.None?
            && (key in t'.exclusive <==> t.mode == S.Exclusive) && t'.exclusive - {key} == t.exclusive - {key}
            && w'.threads.Keys == w.threads.Keys && forall q | q in w.threads && q != p :: w'.threads[q] == w.threads[q]
  {
    RunExcludes(S.Empty, steps);
  }

  /** Steps by which a caller starts over or lets go. */
  predicate StartsOver(step: S.Step, p: S.Pid) {
    (step.Enter? || step.EnterExclusive? || step.Abandon? || step.Leave? || step.Commit?) && step.p == p
  }

  lemma StepCollects(w: S.System, step: S.Step, p: S.Pid, keys: set<Key>)
    requires S.Enabled(w, step) && p in w.threads && !StartsOver(step, p)
    requires forall k | k in keys :: k in w.threads[p].recorded || k in w.threads[p].plan
    ensures p in S.Next(w, step).threads
    ensures forall k | k in keys :: k in S.Next(w, step).threads[p].recorded || k in S.Next(w, step).threads[p].plan
  {
    var t := w.threads[p];
    if (step.Grant? || step.Reuse?) && step.p == p {
      assert forall k | k in t.plan :: k == t.plan[0] || k in t.plan[1..];
    }
  }

  lemma {:induction false} RunCollects(w: S.System, steps: seq<S.Step>, p: S.Pid, keys: set<Key>)
    requires S.Run(w, steps) && p in w.threads && forall i | 0 <= i < |steps| :: !StartsOver(steps[i], p)
    requires forall k | k in keys :: k in w.threads[p].recorded || k in w.threads[p].plan
    ensures p in S.End(w, steps).threads
    ensures forall k | k in keys :: k in S.End(w, steps).threads[p].recorded || k in S.End(w, steps).threads[p].plan
    decreases |steps|
  {
    if steps != [] {
      StepCollects(w, steps[0], p, keys);
      RunCollects(S.Next(w, steps[0]), steps[1..], p, keys);
    }
  }

  /** A caller that entered and has nothing left to ask for records, and so holds, every tenant it
      entered, whatever the others did meanwhile. */
  lemma EntryCompletes(before: seq<S.Step>, p: S.Pid, keys: set<Key>, after: seq<S.Step>)
    requires S.Run(S.Empty, before) && S.Enabled(S.End(S.Empty, before), S.Enter(p, keys))
    requires S.Run(S.Next(S.End(S.Empty, before), S.Enter(p, keys)), after)
    requires forall i | 0 <= i < |after| :: !StartsOver(after[i], p)
    ensures var end := S.End(S.Next(S.End(S.Empty, before), S.Enter(p, keys)), after);
            && p in end.threads
            && (end.threads[p].plan == [] ==> keys <= end.threads[p].recorded && keys <= end.threads[p].locks)
  {
    var w := S.Next(S.End(S.Empty, before), S.Enter(p, keys));
    RunExcludes(S.Empty, before);
    StepExcludes(S.End(S.Empty, before), S.Enter(p, keys));
    RunCollects(w, after, p, keys);
    RunExcludes(w, after);
  }
}
