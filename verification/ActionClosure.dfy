/** Implied authority over an arbitrary finite implication map, cycles included: forward expansion
    of a grant, and the reverse set a query can test a stored grant against. */
module ActionClosure {

  type Implications<!A> = map<A, set<A>>

  function Implied<A>(imp: Implications<A>, a: A): set<A> {
    if a in imp then imp[a] else {}
  }

  ghost predicate Closed<A(!new)>(imp: Implications<A>, s: set<A>) {
    forall a, b | a in s && b in Implied(imp, a) :: b in s
  }

  /** Closed backwards: whatever implies a member is a member. */
  ghost predicate CoClosed<A(!new)>(imp: Implications<A>, s: set<A>) {
    forall a, b | a in imp && b in imp[a] && b in s :: a in s
  }

  ghost predicate LeastClosed<A(!new)>(imp: Implications<A>, s: set<A>, r: set<A>) {
    s <= r && Closed(imp, r) && forall t | s <= t && Closed(imp, t) :: r <= t
  }

  ghost predicate LeastCoClosed<A(!new)>(imp: Implications<A>, a: A, r: set<A>) {
    a in r && CoClosed(imp, r) && forall t | a in t && CoClosed(imp, t) :: r <= t
  }

  function Successors<A>(imp: Implications<A>, s: set<A>): set<A> {
    set a, b | a in s && a in imp && b in imp[a] :: b
  }

  function Predecessors<A>(imp: Implications<A>, s: set<A>): set<A> {
    set a | a in imp && imp[a] * s != {}
  }

  /** The least closed superset of a grant (ExpandIsLeast). */
  function Expand<A(!new)>(imp: Implications<A>, s: set<A>): set<A>
    decreases Successors(imp, imp.Keys) - s
  {
    var next := s + Successors(imp, s);
    if next == s then s
    else
      assert Successors(imp, s) <= Successors(imp, imp.Keys);
      Expand(imp, next)
  }

  /** Every grant that satisfies a request: the least set containing it that is closed backwards. */
  function Satisfying<A(!new)>(imp: Implications<A>, requested: A): set<A> {
    CoExpand(imp, {requested})
  }

  function CoExpand<A(!new)>(imp: Implications<A>, s: set<A>): set<A>
    decreases imp.Keys - s
  {
    var next := s + Predecessors(imp, s);
    if next == s then s else CoExpand(imp, next)
  }

  lemma {:induction false} ExpandIsLeast<A(!new)>(imp: Implications<A>, s: set<A>)
    ensures LeastClosed(imp, s, Expand(imp, s))
    decreases Successors(imp, imp.Keys) - s
  {
    var next := s + Successors(imp, s);
    if next == s {
      assert forall a, b | a in s && b in Implied(imp, a) :: b in Successors(imp, s);
    } else {
      assert Successors(imp, s) <= Successors(imp, imp.Keys);
      ExpandIsLeast(imp, next);
      forall t | s <= t && Closed(imp, t) ensures next <= t {
        assert forall a, b | a in s && a in imp && b in imp[a] :: b in Implied(imp, a);
      }
    }
  }

  lemma {:induction false} CoExpandIsLeast<A(!new)>(imp: Implications<A>, requested: A, s: set<A>)
    requires requested in s && forall t | requested in t && CoClosed(imp, t) :: s <= t
    ensures LeastCoClosed(imp, requested, CoExpand(imp, s))
    decreases imp.Keys - s
  {
    var next := s + Predecessors(imp, s);
    if next == s {
      forall a, b | a in imp && b in imp[a] && b in s ensures a in s {
        assert b in imp[a] * s;
        assert a in Predecessors(imp, s);
      }
    } else {
      forall t | requested in t && CoClosed(imp, t) ensures next <= t {
        forall a | a in Predecessors(imp, s) ensures a in t {
          var b :| b in imp[a] * s;
        }
      }
      CoExpandIsLeast(imp, requested, next);
    }
  }

  lemma SatisfyingIsLeast<A(!new)>(imp: Implications<A>, requested: A)
    ensures LeastCoClosed(imp, requested, Satisfying(imp, requested))
  {
    CoExpandIsLeast(imp, requested, {requested});
  }

  lemma ExpansionMisses<A(!new)>(imp: Implications<A>, granted: set<A>, requested: A)
    requires Satisfying(imp, requested) * granted == {}
    ensures requested !in Expand(imp, granted)
  {
    ExpandIsLeast(imp, granted);
    SatisfyingIsLeast(imp, requested);
    var forward, backward := Expand(imp, granted), Satisfying(imp, requested);
    var t := forward - backward;
    assert forall a, b | a in t && b in Implied(imp, a) :: b in forward;
    assert forall a | a in granted :: a in forward && a !in backward * granted;
    assert forward <= t;
  }

  lemma SatisfyingMisses<A(!new)>(imp: Implications<A>, granted: set<A>, requested: A)
    requires requested !in Expand(imp, granted)
    ensures Satisfying(imp, requested) * granted == {}
  {
    ExpandIsLeast(imp, granted);
    SatisfyingIsLeast(imp, requested);
    var forward, backward := Expand(imp, granted), Satisfying(imp, requested);
    var t := backward - forward;
    forall a, b | a in imp && b in imp[a] && b in t ensures a in t {
      assert a in forward ==> b in Implied(imp, a);
    }
    assert backward <= t;
  }

  /** A grant expands to an action exactly when it meets the set that satisfies the action. */
  lemma Adjoint<A(!new)>(imp: Implications<A>, granted: set<A>, requested: A)
    ensures requested in Expand(imp, granted) <==> Satisfying(imp, requested) * granted != {}
  {
    if Satisfying(imp, requested) * granted == {} {
      ExpansionMisses(imp, granted, requested);
    }
    if requested !in Expand(imp, granted) {
      SatisfyingMisses(imp, granted, requested);
    }
  }

  /** The worklist that materializes an expansion. */
  method ExpandImpliedActions<A(!new, ==)>(imp: Implications<A>, actions: set<A>) returns (expanded: set<A>)
    ensures expanded == Expand(imp, actions)
  {
    ExpandIsLeast(imp, actions);
    ghost var goal := Expand(imp, actions);
    expanded := actions;
    var pending := AsStack(expanded);
    while pending != []
      invariant actions <= expanded <= goal
      invariant forall a | a in pending :: a in expanded
      invariant forall a, b | a in expanded && a !in pending && b in Implied(imp, a) :: b in expanded
      decreases goal - expanded, |pending|
    {
      var action := pending[|pending| - 1];
      pending := pending[..|pending| - 1];
      ghost var before, left := expanded, pending;
      var todo := Implied(imp, action);
      while todo != {}
        invariant before <= expanded <= goal && todo <= Implied(imp, action)
        invariant left <= pending
        invariant expanded == before ==> pending == left
        invariant forall a | a in pending :: a in expanded
        invariant Implied(imp, action) - todo <= expanded
        invariant forall a, b | a in expanded && a !in pending && a != action && b in Implied(imp, a) :: b in expanded
        decreases todo
      {
        var implied :| implied in todo;
        todo := todo - {implied};
        assert implied in goal;
        if implied !in expanded {
          expanded := expanded + {implied};
          pending := pending + [implied];
        }
      }
    }
    assert Closed(imp, expanded);
  }

  method AsStack<A(==)>(s: set<A>) returns (stack: seq<A>)
    ensures forall a :: a in stack <==> a in s
  {
    stack := [];
    var rest := s;
    while rest != {}
      invariant rest <= s
      invariant forall a :: a in stack <==> a in s - rest
      decreases rest
    {
      var a :| a in rest;
      rest := rest - {a};
      stack := stack + [a];
    }
  }

  /** The worklist that finds every satisfying grant. */
  method ActionsSatisfying<A(!new, ==)>(imp: Implications<A>, requested: A) returns (satisfying: set<A>)
    ensures satisfying == Satisfying(imp, requested)
  {
    SatisfyingIsLeast(imp, requested);
    ghost var goal := Satisfying(imp, requested);
    satisfying := {requested};
    var pending := [requested];
    while pending != []
      invariant requested in satisfying && satisfying <= goal
      invariant forall a | a in pending :: a in satisfying
      invariant forall g, a | g in imp && a in imp[g] && a in satisfying && a !in pending :: g in satisfying
      decreases goal - satisfying, |pending|
    {
      var action := pending[|pending| - 1];
      pending := pending[..|pending| - 1];
      ghost var before, left := satisfying, pending;
      var grants := imp.Keys;
      while grants != {}
        invariant before <= satisfying <= goal && grants <= imp.Keys
        invariant left <= pending
        invariant satisfying == before ==> pending == left
        invariant forall a | a in pending :: a in satisfying
        invariant forall g | g in imp && g !in grants && action in imp[g] :: g in satisfying
        invariant forall g, a | g in imp && a in imp[g] && a in satisfying && a !in pending && a != action :: g in satisfying
        decreases grants
      {
        var grant :| grant in grants;
        grants := grants - {grant};
        if action in imp[grant] && grant !in satisfying {
          satisfying := satisfying + {grant};
          pending := pending + [grant];
        }
      }
    }
    assert CoClosed(imp, satisfying);
  }
}
