/** What an applied import makes of the catalogue, in terms of the cells of its rows: which rows go
    through, what each new product is made of, and how a product is tracked afterwards. */
module BulkOutcomes {
  import opened Common
  import opened BulkImport

  /** Row k went through for this name. */
  predicate LetThrough(items: seq<Item>, k: nat, name: string) {
    k < |items| && !items[k].action.Error? && NameText(items[k].data.name) == name
  }

  ghost predicate FirstLet(items: seq<Item>, n: nat, k: nat, name: string) {
    k < n && LetThrough(items, k, name) && forall m: nat | m < k :: !LetThrough(items, m, name)
  }

  ghost predicate LastLet(items: seq<Item>, n: nat, k: nat, name: string) {
    k < n && LetThrough(items, k, name) && forall m: nat | k < m < n :: !LetThrough(items, m, name)
  }

  /** A row that went through has a tracking mode. */
  predicate Moded(items: seq<Item>) {
    forall k | 0 <= k < |items| && !items[k].action.Error? :: ModeOf(items[k].data.tracking).Some?
  }

  /** The product cannot change its tracking mode. */
  predicate Pinned(products: Products, id: nat, held: set<nat>)
    requires id in products
  {
    id in held || exists b :: b in BUCKETS && Amount(products[id].buckets, b) != 0
  }

  lemma PinnedExactly(products: Products, id: nat, held: set<nat>)
    requires id in products
    ensures Pinned(products, id, held) <==> id in held || !NoStock(products[id])
  {
    EveryBucket();
  }

  // ---- One row ------------------------------------------------------------------------------

  /** Only this product's tracking mode changed, and not if it is pinned. */
  ghost predicate Retracked(before: Products, after: Products, id: nat, mode: Option<Mode>, modeMapped: bool, held: set<nat>) {
    && id in before && after.Keys == before.Keys
    && (forall other | other in before && other != id :: after[other] == before[other])
    && after[id].name == before[id].name && after[id].buckets == before[id].buckets
    && (modeMapped ==> Some(after[id].tracking) == mode)
    && (!modeMapped || Pinned(before, id, held) ==> after[id] == before[id])
  }

  ghost predicate OnlyOne(products: Products, id: nat, name: string) {
    id in products && products[id].name == name && forall other | other in products && products[other].name == name :: other == id
  }

  ghost predicate NoneNamed(products: Products, name: string) {
    forall id | id in products :: products[id].name != name
  }

  lemma {:induction false} OneIsUnique(ids: set<nat>, id: nat)
    requires id in ids && |ids| <= 1
    ensures ids == {id}
  {
    if other :| other in ids && other != id { SubsetSize({id, other}, ids); }
  }

  /** What a row that is not an error does, by outcome. */
  lemma RowDoes(products: Products, nextId: nat, item: Item, modeMapped: bool, held: set<nat>, trouble: Trouble)
    returns (id: nat)
    requires Below(products, nextId) && ModeOf(item.data.tracking).Some?
    ensures var (name, mode) := (NameText(item.data.name), ModeOf(item.data.tracking));
            var after := RowApplied(products, nextId, item, modeMapped, held, trouble);
            match RowResultOf(products, item, modeMapped, held, trouble)
            case Created => trouble.Clear? && NoneNamed(products, name) && id == nextId && after == products[id := NewProduct(item.data)]
            case Updated => trouble.Clear? && OnlyOne(products, id, name) && Retracked(products, after, id, mode, modeMapped, held)
            case Failed =>
              && after == products
              && (trouble.Clear? ==>
                    OnlyOne(products, id, name) && modeMapped && Pinned(products, id, held) && Some(products[id].tracking) != mode)
            case Ambiguous => !trouble.Early? && |Matching(products, name)| > 1
  {
    var name := NameText(item.data.name);
    var found := Matching(products, name);
    if found == {} {
      id := nextId;
      forall k | k in products ensures products[k].name != name { assert k !in found; }
    } else {
      id := MinOf(found);
      PinnedExactly(products, id, held);
      if |found| <= 1 {
        OneIsUnique(found, id);
        forall k | k in products && products[k].name == name ensures k == id { assert k in found; }
      }
    }
  }

  // ---- The invariant ------------------------------------------------------------------------

  /** Old products keep name and stock; new ones have names of their own. */
  ghost predicate Grows(before: Products, now: Products) {
    && (forall id | id in before :: id in now && now[id].name == before[id].name && now[id].buckets == before[id].buckets)
    && (forall id, other | id in now && id !in before && other in now && now[other].name == now[id].name :: other == id)
  }

  /** A new product holds what the first row of its name that went through says. */
  ghost predicate Sourced(before: Products, now: Products, items: seq<Item>, n: nat, modeMapped: bool) {
    forall id | id in now && id !in before ::
      exists k: nat :: FirstLet(items, n, k, now[id].name) && MadeOf(now[id], items[k].data, modeMapped)
  }

  predicate MadeOf(p: Product, data: Data, modeMapped: bool) {
    && (forall b | b in BUCKETS :: b in p.buckets && p.buckets[b] == Amount(data.buckets, b))
    && (!modeMapped ==> Some(p.tracking) == ModeOf(data.tracking))
  }

  /** Where a mode is mapped, a product is tracked as the last row of its name that went through says,
      and as before if there is none. */
  ghost predicate Tracked(before: Products, now: Products, items: seq<Item>, n: nat, modeMapped: bool) {
    && n <= |items|
    && (modeMapped ==> forall id, k: nat | id in now && LastLet(items, n, k, now[id].name) ::
          Some(now[id].tracking) == ModeOf(items[k].data.tracking))
    && (forall id | id in before && id in now && (!modeMapped || forall k: nat | k < n :: !LetThrough(items, k, now[id].name)) ::
          now[id].tracking == before[id].tracking)
  }

  /** Every name that went through is somebody's, and only one product's. */
  ghost predicate Present(now: Products, items: seq<Item>, n: nat) {
    forall k: nat | k < n && k < |items| && !items[k].action.Error? :: exists id :: OnlyOne(now, id, NameText(items[k].data.name))
  }

  /** A pinned product of that name is tracked otherwise. */
  ghost predicate Refused(now: Products, item: Item, modeMapped: bool, held: set<nat>) {
    modeMapped && exists id :: id in now && now[id].name == NameText(item.data.name) && Pinned(now, id, held)
                               && Some(now[id].tracking) != ModeOf(item.data.tracking)
  }

  /** The rows done so far that are errors. */
  ghost predicate Failing(now: Products, items: seq<Item>, current: seq<Item>, n: nat, modeMapped: bool, held: set<nat>, trouble: nat -> Trouble) {
    && Demotes(items, current) && n <= |items| && (forall k | n <= k < |items| :: current[k] == items[k])
    && forall k: nat | k < n :: current[k].action.Error? <==>
         items[k].action.Error? || trouble(k) != Clear || Refused(now, items[k], modeMapped, held)
  }

  ghost predicate Meaning(before: Products, s: Import, items: seq<Item>, n: nat, modeMapped: bool, held: set<nat>, trouble: nat -> Trouble) {
    && Below(s.products, s.nextId) && Grows(before, s.products)
    && Failing(s.products, items, s.tally.items, n, modeMapped, held, trouble)
    && Sourced(before, s.products, s.tally.items, n, modeMapped)
    && Tracked(before, s.products, s.tally.items, n, modeMapped)
    && Present(s.products, s.tally.items, n)
  }

  // ---- Each outcome keeps it ------------------------------------------------------------------

  lemma FirstStays(items: seq<Item>, n: nat, k: nat, name: string)
    requires FirstLet(items, n, k, name)
    ensures FirstLet(items, n + 1, k, name)
  {}

  lemma CreatedKeeps(before: Products, now: Products, id: nat, items: seq<Item>, current: seq<Item>, n: nat,
                     modeMapped: bool, held: set<nat>, trouble: nat -> Trouble)
    requires n < |items| && Moded(items) && !items[n].action.Error? && trouble(n).Clear? && Below(now, id) && Below(before, id)
    requires Grows(before, now) && Failing(now, items, current, n, modeMapped, held, trouble)
    requires Sourced(before, now, current, n, modeMapped) && Tracked(before, now, current, n, modeMapped) && Present(now, current, n)
    requires NoneNamed(now, NameText(items[n].data.name))
    ensures var after := now[id := NewProduct(items[n].data)];
            && Grows(before, after) && Failing(after, items, current, n + 1, modeMapped, held, trouble)
            && Sourced(before, after, current, n + 1, modeMapped) && Tracked(before, after, current, n + 1, modeMapped)
            && Present(after, current, n + 1)
  {
    var (p, name) := (NewProduct(items[n].data), NameText(items[n].data.name));
    var after := now[id := p];
    assert current[n] == items[n] && LetThrough(current, n, name);
    forall k: nat | k < n ensures !LetThrough(current, k, name) {
      assert k < |current| && !current[k].action.Error? ==> exists other :: OnlyOne(now, other, NameText(current[k].data.name));
    }
    CreatedSourced(before, now, id, current, n, modeMapped);
    CreatedTracked(before, now, id, current, n, modeMapped);
    CreatedPresent(now, id, current, n);
    CreatedFailing(now, id, items, current, n, modeMapped, held, trouble);
  }

  lemma CreatedSourced(before: Products, now: Products, id: nat, current: seq<Item>, n: nat, modeMapped: bool)
    requires n < |current| && Below(now, id) && Sourced(before, now, current, n, modeMapped)
    requires !current[n].action.Error? && ModeOf(current[n].data.tracking).Some?
    requires forall k: nat | k < n :: !LetThrough(current, k, NameText(current[n].data.name))
    ensures Sourced(before, now[id := NewProduct(current[n].data)], current, n + 1, modeMapped)
  {
    var after := now[id := NewProduct(current[n].data)];
    forall other | other in after && other !in before
      ensures exists k: nat :: FirstLet(current, n + 1, k, after[other].name) && MadeOf(after[other], current[k].data, modeMapped)
    {
      if other == id {
        assert FirstLet(current, n + 1, n, after[id].name) && MadeOf(after[id], current[n].data, modeMapped);
      } else {
        var k: nat :| FirstLet(current, n, k, now[other].name) && MadeOf(now[other], current[k].data, modeMapped);
        FirstStays(current, n, k, now[other].name);
      }
    }
  }

  lemma CreatedTracked(before: Products, now: Products, id: nat, current: seq<Item>, n: nat, modeMapped: bool)
    requires n < |current| && Below(now, id) && Below(before, id) && Tracked(before, now, current, n, modeMapped)
    requires !current[n].action.Error? && ModeOf(current[n].data.tracking).Some?
    requires NoneNamed(now, NameText(current[n].data.name))
    ensures Tracked(before, now[id := NewProduct(current[n].data)], current, n + 1, modeMapped)
  {
    var (after, name) := (now[id := NewProduct(current[n].data)], NameText(current[n].data.name));
    assert LetThrough(current, n, name) && after[id].name == name;
    forall other, k: nat | other in after && LastLet(current, n + 1, k, after[other].name)
      ensures modeMapped ==> Some(after[other].tracking) == ModeOf(current[k].data.tracking)
    {
      if other == id {
        assert k == n;
      } else {
        assert now[other].name != name;
        assert LastLet(current, n, k, now[other].name);
      }
    }
    forall other | other in before && other in after && (!modeMapped || forall k: nat | k < n + 1 :: !LetThrough(current, k, after[other].name))
      ensures after[other].tracking == before[other].tracking
    {
      assert other != id && now[other] == after[other];
    }
  }

  lemma CreatedPresent(now: Products, id: nat, current: seq<Item>, n: nat)
    requires n < |current| && Below(now, id) && Present(now, current, n) && !current[n].action.Error?
    requires NoneNamed(now, NameText(current[n].data.name))
    ensures Present(now[id := NewProduct(current[n].data)], current, n + 1)
  {
    var after := now[id := NewProduct(current[n].data)];
    forall k: nat | k < n + 1 && k < |current| && !current[k].action.Error?
      ensures exists other :: OnlyOne(after, other, NameText(current[k].data.name))
    {
      if k == n {
        assert OnlyOne(after, id, NameText(current[n].data.name));
      } else {
        var other :| OnlyOne(now, other, NameText(current[k].data.name));
        assert OnlyOne(after, other, NameText(current[k].data.name));
      }
    }
  }

  lemma CreatedFailing(now: Products, id: nat, items: seq<Item>, current: seq<Item>, n: nat, modeMapped: bool, held: set<nat>, trouble: nat -> Trouble)
    requires n < |items| && Below(now, id) && Failing(now, items, current, n, modeMapped, held, trouble)
    requires !items[n].action.Error? && ModeOf(items[n].data.tracking).Some? && trouble(n).Clear?
    requires NoneNamed(now, NameText(items[n].data.name))
    requires forall k: nat | k < n :: !LetThrough(current, k, NameText(items[n].data.name))
    ensures Failing(now[id := NewProduct(items[n].data)], items, current, n + 1, modeMapped, held, trouble)
  {
    var (after, name) := (now[id := NewProduct(items[n].data)], NameText(items[n].data.name));
    assert after[id].name == name && Some(after[id].tracking) == ModeOf(items[n].data.tracking);
    forall k: nat | k < n + 1 ensures current[k].action.Error? <==>
         items[k].action.Error? || trouble(k) != Clear || Refused(after, items[k], modeMapped, held)
    {
      if k == n {
        assert !Refused(after, items[n], modeMapped, held);
      } else if NameText(items[k].data.name) != name {
        assert Refused(after, items[k], modeMapped, held) <==> Refused(now, items[k], modeMapped, held) by {
          SameForOthers(now, after, items[k], modeMapped, held);
        }
      } else {
        assert !LetThrough(current, k, name);
        assert current[k].action.Error?;
        assert !Refused(now, items[k], modeMapped, held);
      }
    }
  }

  /** Refusal looks only at products of the row's name. */
  lemma SameForOthers(now: Products, after: Products, item: Item, modeMapped: bool, held: set<nat>)
    requires forall id | id in now && now[id].name == NameText(item.data.name) :: id in after && after[id] == now[id]
    requires forall id | id in after && after[id].name == NameText(item.data.name) :: id in now && after[id] == now[id]
    ensures Refused(after, item, modeMapped, held) <==> Refused(now, item, modeMapped, held)
  {
    if Refused(now, item, modeMapped, held) {
      var id :| id in now && now[id].name == NameText(item.data.name) && Pinned(now, id, held)
                && Some(now[id].tracking) != ModeOf(item.data.tracking);
      assert Pinned(after, id, held);
    }
    if Refused(after, item, modeMapped, held) {
      var id :| id in after && after[id].name == NameText(item.data.name) && Pinned(after, id, held)
                && Some(after[id].tracking) != ModeOf(item.data.tracking);
      assert Pinned(now, id, held);
    }
  }

  /** A row that does not go through leaves what was said of the others. */
  lemma PassedOver(before: Products, now: Products, current: seq<Item>, after: seq<Item>, n: nat, modeMapped: bool)
    requires n < |current| && |after| == |current| && after[n].action.Error? && forall k: nat | k < n :: after[k] == current[k]
    requires Sourced(before, now, current, n, modeMapped) && Tracked(before, now, current, n, modeMapped) && Present(now, current, n)
    ensures Sourced(before, now, after, n + 1, modeMapped) && Tracked(before, now, after, n + 1, modeMapped) && Present(now, after, n + 1)
  {
    forall id | id in now && id !in before
      ensures exists k: nat :: FirstLet(after, n + 1, k, now[id].name) && MadeOf(now[id], after[k].data, modeMapped)
    {
      var k: nat :| FirstLet(current, n, k, now[id].name) && MadeOf(now[id], current[k].data, modeMapped);
      forall m: nat | m < k ensures !LetThrough(after, m, now[id].name) { assert !LetThrough(current, m, now[id].name); }
      assert FirstLet(after, n + 1, k, now[id].name);
    }
    PassedTracked(before, now, current, after, n, modeMapped);
  }

  lemma PassedTracked(before: Products, now: Products, current: seq<Item>, after: seq<Item>, n: nat, modeMapped: bool)
    requires n < |current| && |after| == |current| && after[n].action.Error? && forall k: nat | k < n :: after[k] == current[k]
    requires Tracked(before, now, current, n, modeMapped)
    ensures Tracked(before, now, after, n + 1, modeMapped)
  {
    forall k: nat, name | k < n ensures LetThrough(after, k, name) <==> LetThrough(current, k, name) {}
    forall id, k: nat | id in now && LastLet(after, n + 1, k, now[id].name)
      ensures modeMapped ==> Some(now[id].tracking) == ModeOf(after[k].data.tracking)
    {
      forall m: nat | k < m < n ensures !LetThrough(current, m, now[id].name) { assert !LetThrough(after, m, now[id].name); }
      assert LastLet(current, n, k, now[id].name);
    }
    forall id | id in before && id in now && (!modeMapped || forall k: nat | k < n + 1 :: !LetThrough(after, k, now[id].name))
      ensures now[id].tracking == before[id].tracking
    {
      if modeMapped {
        forall k: nat | k < n ensures !LetThrough(current, k, now[id].name) { assert !LetThrough(after, k, now[id].name); }
      }
    }
  }

  lemma FailedKeeps(before: Products, now: Products, items: seq<Item>, current: seq<Item>, n: nat, modeMapped: bool, held: set<nat>, trouble: nat -> Trouble)
    requires n < |items| && !items[n].action.Error? && Failing(now, items, current, n, modeMapped, held, trouble)
    requires trouble(n) != Clear || Refused(now, items[n], modeMapped, held)
    requires Sourced(before, now, current, n, modeMapped) && Tracked(before, now, current, n, modeMapped) && Present(now, current, n)
    ensures var after := current[n := items[n].(action := Error)];
            && Failing(now, items, after, n + 1, modeMapped, held, trouble)
            && Sourced(before, now, after, n + 1, modeMapped) && Tracked(before, now, after, n + 1, modeMapped) && Present(now, after, n + 1)
  {
    PassedOver(before, now, current, current[n := items[n].(action := Error)], n, modeMapped);
  }

  lemma UpdatedKeeps(before: Products, now: Products, after: Products, id: nat, items: seq<Item>, current: seq<Item>, n: nat,
                     modeMapped: bool, held: set<nat>, trouble: nat -> Trouble)
    requires n < |items| && Moded(items) && !items[n].action.Error? && trouble(n).Clear?
    requires Grows(before, now) && Failing(now, items, current, n, modeMapped, held, trouble)
    requires Sourced(before, now, current, n, modeMapped) && Tracked(before, now, current, n, modeMapped) && Present(now, current, n)
    requires OnlyOne(now, id, NameText(items[n].data.name))
    requires Retracked(now, after, id, ModeOf(items[n].data.tracking), modeMapped, held)
    ensures Grows(before, after) && Failing(after, items, current, n + 1, modeMapped, held, trouble)
    ensures Sourced(before, after, current, n + 1, modeMapped) && Tracked(before, after, current, n + 1, modeMapped)
    ensures Present(after, current, n + 1)
  {
    assert current[n] == items[n];
    UpdatedSourced(before, now, after, id, current, n, modeMapped, held);
    UpdatedTracked(before, now, after, id, current, n, modeMapped, held);
    UpdatedPresent(now, after, id, current, n, modeMapped, held);
    UpdatedFailing(now, after, id, items, current, n, modeMapped, held, trouble);
  }

  lemma UpdatedSourced(before: Products, now: Products, after: Products, id: nat, current: seq<Item>, n: nat, modeMapped: bool, held: set<nat>)
    requires n < |current| && Sourced(before, now, current, n, modeMapped)
    requires Retracked(now, after, id, ModeOf(current[n].data.tracking), modeMapped, held)
    ensures Sourced(before, after, current, n + 1, modeMapped)
  {
    forall other | other in after && other !in before
      ensures exists k: nat :: FirstLet(current, n + 1, k, after[other].name) && MadeOf(after[other], current[k].data, modeMapped)
    {
      var k: nat :| FirstLet(current, n, k, now[other].name) && MadeOf(now[other], current[k].data, modeMapped);
      FirstStays(current, n, k, now[other].name);
      assert after[other].name == now[other].name;
    }
  }

  lemma UpdatedTracked(before: Products, now: Products, after: Products, id: nat, current: seq<Item>, n: nat, modeMapped: bool, held: set<nat>)
    requires n < |current| && !current[n].action.Error? && Tracked(before, now, current, n, modeMapped)
    requires OnlyOne(now, id, NameText(current[n].data.name))
    requires Retracked(now, after, id, ModeOf(current[n].data.tracking), modeMapped, held)
    ensures Tracked(before, after, current, n + 1, modeMapped)
  {
    var name := NameText(current[n].data.name);
    assert LetThrough(current, n, name);
    forall other, k: nat | other in after && LastLet(current, n + 1, k, after[other].name)
      ensures modeMapped ==> Some(after[other].tracking) == ModeOf(current[k].data.tracking)
    {
      if other == id {
        assert k == n;
      } else {
        assert now[other].name != name && LastLet(current, n, k, now[other].name);
      }
    }
    forall other | other in before && other in after && (!modeMapped || forall k: nat | k < n + 1 :: !LetThrough(current, k, after[other].name))
      ensures after[other].tracking == before[other].tracking
    {
      assert after[other] == now[other];
    }
  }

  lemma UpdatedPresent(now: Products, after: Products, id: nat, current: seq<Item>, n: nat, modeMapped: bool, held: set<nat>)
    requires n < |current| && Present(now, current, n) && OnlyOne(now, id, NameText(current[n].data.name))
    requires Retracked(now, after, id, ModeOf(current[n].data.tracking), modeMapped, held)
    ensures Present(after, current, n + 1)
  {
    forall k: nat | k < n + 1 && k < |current| && !current[k].action.Error?
      ensures exists other :: OnlyOne(after, other, NameText(current[k].data.name))
    {
      if k == n {
        assert OnlyOne(after, id, NameText(current[n].data.name));
      } else {
        var other :| OnlyOne(now, other, NameText(current[k].data.name));
        assert OnlyOne(after, other, NameText(current[k].data.name));
      }
    }
  }

  lemma UpdatedFailing(now: Products, after: Products, id: nat, items: seq<Item>, current: seq<Item>, n: nat, modeMapped: bool, held: set<nat>, trouble: nat -> Trouble)
    requires n < |items| && Failing(now, items, current, n, modeMapped, held, trouble)
    requires !items[n].action.Error? && trouble(n).Clear? && OnlyOne(now, id, NameText(items[n].data.name))
    requires Retracked(now, after, id, ModeOf(items[n].data.tracking), modeMapped, held)
    ensures Failing(after, items, current, n + 1, modeMapped, held, trouble)
  {
    var name := NameText(items[n].data.name);
    assert OnlyOne(after, id, name) && (Pinned(after, id, held) <==> Pinned(now, id, held));
    forall k: nat | k < n + 1 ensures current[k].action.Error? <==>
         items[k].action.Error? || trouble(k) != Clear || Refused(after, items[k], modeMapped, held)
    {
      if NameText(items[k].data.name) != name || Pinned(now, id, held) {
        SameForOthers(now, after, items[k], modeMapped, held);
      }
    }
  }

  // ---- All rows -------------------------------------------------------------------------------

  lemma NothingDone(before: Products, nextId: nat, items: seq<Item>, modeMapped: bool, held: set<nat>, trouble: nat -> Trouble)
    requires Below(before, nextId)
    ensures Meaning(before, Import(before, nextId, Tally(items, 0, [], 0, 0), false), items, 0, modeMapped, held, trouble)
  {}

  lemma NextMeaning(before: Products, s: Import, items: seq<Item>, n: nat, modeMapped: bool, held: set<nat>, trouble: nat -> Trouble)
    requires n < |items| && Moded(items) && s.tally.done == n && |s.tally.items| == |items|
    requires Meaning(before, s, items, n, modeMapped, held, trouble)
    requires !RowStep(s, items[n], modeMapped, held, trouble(n)).aborted
    ensures Meaning(before, RowStep(s, items[n], modeMapped, held, trouble(n)), items, n + 1, modeMapped, held, trouble)
  {
    var (now, current) := (s.products, s.tally.items);
    if items[n].action.Error? {
      PassedOver(before, now, current, current, n, modeMapped);
    } else {
      var id := RowDoes(now, s.nextId, items[n], modeMapped, held, trouble(n));
      match RowResultOf(now, items[n], modeMapped, held, trouble(n))
      case Created => CreatedKeeps(before, now, id, items, current, n, modeMapped, held, trouble);
      case Updated =>
        UpdatedKeeps(before, now, RowApplied(now, s.nextId, items[n], modeMapped, held, trouble(n)), id, items, current, n,
                     modeMapped, held, trouble);
      case Failed => FailedKeeps(before, now, items, current, n, modeMapped, held, trouble);
    }
  }

  lemma {:induction false} RowsMean(before: Products, nextId: nat, items: seq<Item>, n: nat, modeMapped: bool, held: set<nat>, trouble: nat -> Trouble)
    requires n <= |items| && Moded(items) && Below(before, nextId)
    requires !AfterRows(before, nextId, items, n, modeMapped, held, trouble).aborted
    ensures Meaning(before, AfterRows(before, nextId, items, n, modeMapped, held, trouble), items, n, modeMapped, held, trouble)
  {
    if n == 0 {
      NothingDone(before, nextId, items, modeMapped, held, trouble);
    } else {
      RowsMean(before, nextId, items, n - 1, modeMapped, held, trouble);
      NextMeaning(before, AfterRows(before, nextId, items, n - 1, modeMapped, held, trouble), items, n - 1, modeMapped, held, trouble);
    }
  }

  /** An import is aborted exactly by a row that would go on to look up a name two products have. */
  lemma {:induction false} AbortedExactly(before: Products, nextId: nat, items: seq<Item>, n: nat, modeMapped: bool, held: set<nat>, trouble: nat -> Trouble)
    requires n <= |items| && Moded(items) && Below(before, nextId)
    ensures AfterRows(before, nextId, items, n, modeMapped, held, trouble).aborted <==> Ambiguities(before, items, n, trouble)
  {
    if n > 0 {
      AbortedExactly(before, nextId, items, n - 1, modeMapped, held, trouble);
      var s := AfterRows(before, nextId, items, n - 1, modeMapped, held, trouble);
      if !s.aborted {
        RowsMean(before, nextId, items, n - 1, modeMapped, held, trouble);
        AbortsHere(before, s, items[n - 1], modeMapped, held, trouble(n - 1));
      }
      OneMoreAmbiguity(before, items, n - 1, trouble);
    }
  }

  ghost predicate Ambiguities(before: Products, items: seq<Item>, n: nat, trouble: nat -> Trouble) {
    exists k: nat :: k < n && k < |items| && Ambiguity(before, items[k], trouble(k))
  }

  lemma OneMoreAmbiguity(before: Products, items: seq<Item>, n: nat, trouble: nat -> Trouble)
    requires n < |items|
    ensures Ambiguities(before, items, n + 1, trouble) <==>
              Ambiguities(before, items, n, trouble) || Ambiguity(before, items[n], trouble(n))
  {}

  lemma AbortsHere(before: Products, s: Import, item: Item, modeMapped: bool, held: set<nat>, trouble: Trouble)
    requires Grows(before, s.products) && s.tally.done < |s.tally.items| && !s.aborted
    ensures RowStep(s, item, modeMapped, held, trouble).aborted <==> Ambiguity(before, item, trouble)
  {
    SameNamesakes(before, s.products, NameText(item.data.name));
  }

  predicate Ambiguity(products: Products, item: Item, trouble: Trouble) {
    !item.action.Error? && !trouble.Early? && |Matching(products, NameText(item.data.name))| > 1
  }

  lemma SameNamesakes(before: Products, now: Products, name: string)
    requires Grows(before, now)
    ensures |Matching(now, name)| > 1 <==> |Matching(before, name)| > 1
  {
    assert Matching(before, name) <= Matching(now, name);
    if id :| id in Matching(now, name) && id !in before {
      assert Matching(now, name) == {id};
      assert Matching(before, name) == {};
    } else {
      assert Matching(now, name) == Matching(before, name);
    }
  }

  // ---- Rows and cells -------------------------------------------------------------------------

  /** A cell holds a whole number the importer takes. */
  predicate Holds(row: Row, b: Bucket, amount: int) {
    ParseInt(Read(row, Quantity(b))) == Some(amount) && 0 <= amount <= MAX_IMPORT_QUANTITY
  }

  function Amounts(row: Row, mapping: set<Column>, b: Bucket): int {
    var parsed := ParseInt(Read(row, Quantity(b)));
    if Quantity(b) in mapping && parsed.Some? then parsed.value else 0
  }

  /** Stock only workflows may record, and any stock at all for an individually tracked product. */
  predicate Phantom(row: Row, mapping: set<Column>) {
    || Amounts(row, mapping, Reserved) != 0 || Amounts(row, mapping, Issued) != 0
    || Amounts(row, mapping, Damaged) != 0 || Amounts(row, mapping, Lost) != 0
    || (TrackingColumn in mapping && Read(row, TrackingColumn) == Text("individual")
        && (Amounts(row, mapping, Total) != 0 || Amounts(row, mapping, Available) != 0))
  }

  /** The row is in order: named, its mapped numbers whole and in range, within its total, its mode
      known, nothing refused elsewhere; and if it would make a product, without phantom stock. */
  predicate Fit(row: Row, mapping: set<Column>, existing: set<string>) {
    && NameColumn in mapping && Quantity(Total) in mapping && Quantity(Available) in mapping
    && Truthy(Read(row, NameColumn)) && !row.refused
    && !Blank(Read(row, Quantity(Total))) && !Blank(Read(row, Quantity(Available)))
    && (forall b | b in BUCKETS && Quantity(b) in mapping :: Holds(row, b, Amounts(row, mapping, b)))
    && Amounts(row, mapping, Available) + Amounts(row, mapping, Reserved) + Amounts(row, mapping, Issued)
         + Amounts(row, mapping, Damaged) + Amounts(row, mapping, Lost) <= Amounts(row, mapping, Total)
    && (TrackingColumn in mapping ==> Read(row, TrackingColumn) in {Text("quantity"), Text("individual")})
    && (Known(row, existing) || !Phantom(row, mapping))
  }

  predicate Known(row: Row, existing: set<string>) {
    Read(row, NameColumn).Text? && Read(row, NameColumn).text in existing
  }

  lemma AmountIs(row: Row, mapping: set<Column>, b: Bucket)
    ensures Amount(BucketsOf(row, mapping), b) == Amounts(row, mapping, b)
  {
    assert b in BucketsOf(row, mapping) <==> BucketValue(row, mapping, b).Some?;
  }

  lemma PhantomExactly(row: Row, mapping: set<Column>)
    ensures CreateFaults(DataOf(row, mapping)) == {} <==> !Phantom(row, mapping)
  {
    var data := DataOf(row, mapping);
    forall b: Bucket ensures Amount(data.buckets, b) == Amounts(row, mapping, b) { AmountIs(row, mapping, b); }
    if CreateFaults(data) == {} {
      forall b: Bucket | Protected(b) || ModeOf(data.tracking) == Some(Individual) ensures Amounts(row, mapping, b) == 0 {
        assert PhantomStock(b) !in CreateFaults(data);
      }
    } else {
      var fault :| fault in CreateFaults(data);
      var b := fault.bucket;
      assert Amounts(row, mapping, b) != 0 && (Protected(b) || ModeOf(data.tracking) == Some(Individual));
      assert "quantity"[0] != "individual"[0];
    }
  }

  lemma NumbersExactly(row: Row, mapping: set<Column>)
    ensures BadNumbers(row, mapping) == {} <==>
              forall b | b in BUCKETS && Quantity(b) in mapping :: Holds(row, b, Amounts(row, mapping, b))
  {
    EveryBucket();
    if BadNumbers(row, mapping) == {} {
      forall b | b in BUCKETS && Quantity(b) in mapping ensures Holds(row, b, Amounts(row, mapping, b)) {
        assert BadNumber(b) !in BadNumbers(row, mapping);
      }
    } else {
      var fault :| fault in BadNumbers(row, mapping);
      assert !Holds(row, fault.bucket, Amounts(row, mapping, fault.bucket));
    }
  }

  lemma RequiredExactly(row: Row, mapping: set<Column>)
    ensures Required(row, mapping) == {} <==>
              && NameColumn in mapping && Quantity(Total) in mapping && Quantity(Available) in mapping
              && !Blank(Read(row, NameColumn)) && !Blank(Read(row, Quantity(Total))) && !Blank(Read(row, Quantity(Available)))
  {
    if Required(row, mapping) == {} {
      assert Missing(NameColumn) !in Required(row, mapping);
      assert Missing(Quantity(Total)) !in Required(row, mapping);
      assert Missing(Quantity(Available)) !in Required(row, mapping);
    }
  }

  lemma OverTotalExactly(row: Row, mapping: set<Column>)
    requires Quantity(Total) in mapping
    ensures Exceeds(BucketsOf(row, mapping)) <==>
              Amounts(row, mapping, Available) + Amounts(row, mapping, Reserved) + Amounts(row, mapping, Issued)
                + Amounts(row, mapping, Damaged) + Amounts(row, mapping, Lost) > Amounts(row, mapping, Total)
  {
    forall b: Bucket ensures Amount(BucketsOf(row, mapping), b) == Amounts(row, mapping, b) { AmountIs(row, mapping, b); }
    assert Total in BucketsOf(row, mapping);
  }

  lemma FaultlessExactly(row: Row, mapping: set<Column>)
    ensures FaultsOf(row, mapping) == {} <==>
              && Required(row, mapping) == {} && BadNumbers(row, mapping) == {} && !row.refused
              && ModeOf(DataOf(row, mapping).tracking).Some? && !Exceeds(BucketsOf(row, mapping))
  {
    if FaultsOf(row, mapping) == {} {
      forall fault ensures fault !in Required(row, mapping) && fault !in BadNumbers(row, mapping) {
        assert fault !in FaultsOf(row, mapping);
      }
      assert BadTracking !in FaultsOf(row, mapping) && OverTotal !in FaultsOf(row, mapping) && Elsewhere !in FaultsOf(row, mapping);
    }
  }

  /** The preview lets a row through exactly if it is in order, as an update of a known text name and
      as a creation of any other. */
  lemma PreviewedExactly(row: Row, mapping: set<Column>, existing: set<string>, index: nat)
    ensures var action := ItemOf(row, mapping, existing, index).action;
            if !Fit(row, mapping, existing) then action == Error
            else if Known(row, existing) then action == Update else action == Create
  {
    FaultlessExactly(row, mapping);
    RequiredExactly(row, mapping);
    NumbersExactly(row, mapping);
    PhantomExactly(row, mapping);
    if Quantity(Total) in mapping { OverTotalExactly(row, mapping); }
    ErrorIffReported(row, mapping, existing, index);
    AllFaultsSplit(row, mapping, existing);
  }

  lemma AllFaultsSplit(row: Row, mapping: set<Column>, existing: set<string>)
    ensures AllFaults(row, mapping, existing) == {} <==>
              && FaultsOf(row, mapping) == {}
              && (ActionOf(DataOf(row, mapping), existing).Create? ==> CreateFaults(DataOf(row, mapping)) == {})
  {}

  // ---- Numbers ----------------------------------------------------------------------------------

  lemma {:induction false} ShownDigits(n: nat)
    ensures Digits(ShowInt(n)) && Decimal(ShowInt(n)) == n
  {
    if n < 10 {
      assert ShowInt(n)[..0] == "" && Decimal(ShowInt(n)[..0]) == 0;
    } else {
      ShownDigits(n / 10);
      var s := ShowInt(n);
      assert s[..|s| - 1] == ShowInt(n / 10);
    }
  }

  lemma DigitsStripped(s: string)
    requires s != "" && !IsSpace(s[0]) && !IsSpace(s[|s| - 1])
    ensures Strip(s) == s
  {}

  /** A whole number is read back from any cell that shows it: as a number, as a fraction, or as text,
      signed or padded. */
  lemma NumbersReadBack(n: int, shown: string)
    ensures ParseInt(Number(n)) == Some(n) && ParseInt(Text(ShowInt(n))) == Some(n)
    ensures ParseInt(Fraction(n as real, shown)) == Some(n)
    ensures n >= 0 ==> ParseInt(Text("+" + ShowInt(n))) == Some(n) && ParseInt(Text(" " + ShowInt(n))) == Some(n)
  {
    var digits := ShowInt(if n < 0 then -n else n);
    ShownDigits(if n < 0 then -n else n);
    if n < 0 {
      SignedReadBack("-", digits);
    } else {
      PlainReadBack(digits);
      SignedReadBack("+", digits);
    }
    assert (n as real).Floor == n && (-(n as real)).Floor == -n;
  }

  lemma PlainReadBack(digits: string)
    requires Digits(digits)
    ensures ParseInt(Text(digits)) == Some(Decimal(digits)) && ParseInt(Text(" " + digits)) == Some(Decimal(digits))
  {
    DigitsStripped(digits);
    assert (" " + digits)[1..] == digits;
  }

  lemma SignedReadBack(sign: string, digits: string)
    requires Digits(digits) && (sign == "-" || sign == "+")
    ensures ParseInt(Text(sign + digits)) == Some(if sign == "-" then -Decimal(digits) else Decimal(digits))
  {
    var s := sign + digits;
    assert s[|s| - 1] == digits[|digits| - 1];
    DigitsStripped(s);
    assert s[1..] == digits && !Digits(s);
  }

  // ---- The import -------------------------------------------------------------------------------

  predicate HasAll(p: Product) {
    && Total in p.buckets && Available in p.buckets && Reserved in p.buckets
    && Issued in p.buckets && Damaged in p.buckets && Lost in p.buckets
  }

  /** What the product holds is written in the row's cells. */
  predicate WrittenIn(p: Product, row: Row, mapping: set<Column>) {
    && HasAll(p)
    && p.buckets[Reserved] == 0 && p.buckets[Issued] == 0 && p.buckets[Damaged] == 0 && p.buckets[Lost] == 0
    && ParseInt(Read(row, Quantity(Total))) == Some(p.buckets[Total])
    && ParseInt(Read(row, Quantity(Available))) == Some(p.buckets[Available])
    && 0 <= p.buckets[Available] <= p.buckets[Total] <= MAX_IMPORT_QUANTITY
    && (TrackingColumn !in mapping ==> p.tracking == ByQuantity)
  }

  predicate ModeWritten(p: Product, row: Row) {
    Read(row, TrackingColumn) == Text(if p.tracking == ByQuantity then "quantity" else "individual")
  }

  /** Where row k stands for this name. */
  predicate Went(rows: seq<Row>, done: seq<Item>, k: nat, name: string) {
    k < |rows| && k < |done| && !done[k].action.Error? && NameText(Read(rows[k], NameColumn)) == name
  }

  ghost predicate FirstWent(rows: seq<Row>, done: seq<Item>, k: nat, name: string) {
    Went(rows, done, k, name) && forall m: nat | m < k :: !Went(rows, done, m, name)
  }

  ghost predicate LastWent(rows: seq<Row>, done: seq<Item>, k: nat, name: string) {
    Went(rows, done, k, name) && forall m: nat | k < m :: !Went(rows, done, m, name)
  }

  /** A pinned product of the row's name is tracked otherwise than the row wants. */
  ghost predicate ModeRefused(now: Products, row: Row, mapping: set<Column>, held: set<nat>) {
    TrackingColumn in mapping && exists id :: id in now && now[id].name == NameText(Read(row, NameColumn))
                                              && Pinned(now, id, held) && !ModeWritten(now[id], row)
  }

  /** The rows whose images are ready, as the preview classified them. */
  function Prepared(rows: seq<Row>, mapping: set<Column>, existing: set<string>, unprepared: nat -> bool): seq<Item> {
    Ready(Previewed(rows, |rows|, mapping, existing), unprepared)
  }

  lemma PreparedAt(rows: seq<Row>, mapping: set<Column>, existing: set<string>, unprepared: nat -> bool, k: nat)
    requires k < |rows|
    ensures var item := Prepared(rows, mapping, existing, unprepared)[k];
            && item.data == DataOf(rows[k], mapping) && item.row == k + 2
            && (item.action.Error? <==> !Fit(rows[k], mapping, existing) || unprepared(k))
            && (!item.action.Error? ==> (item.action.Update? <==> Known(rows[k], existing)))
  {
    PreviewedAt(rows, |rows|, mapping, existing, k);
    PreviewedExactly(rows[k], mapping, existing, k + 2);
  }

  /** Between the items of the import and the rows they were read from. */
  ghost predicate ReadFrom(rows: seq<Row>, mapping: set<Column>, existing: set<string>, done: seq<Item>) {
    && |done| == |rows|
    && forall k | 0 <= k < |rows| && !done[k].action.Error? ::
         Fit(rows[k], mapping, existing) && done[k].data == DataOf(rows[k], mapping)
  }

  lemma DoneReads(rows: seq<Row>, mapping: set<Column>, existing: set<string>, unprepared: nat -> bool, done: seq<Item>)
    requires Demotes(Prepared(rows, mapping, existing, unprepared), done)
    ensures ReadFrom(rows, mapping, existing, done) && Moded(Prepared(rows, mapping, existing, unprepared))
  {
    forall k | 0 <= k < |rows| && !Prepared(rows, mapping, existing, unprepared)[k].action.Error?
      ensures Fit(rows[k], mapping, existing) && ModeOf(DataOf(rows[k], mapping).tracking).Some?
      ensures Prepared(rows, mapping, existing, unprepared)[k].data == DataOf(rows[k], mapping)
    {
      PreparedAt(rows, mapping, existing, unprepared, k);
    }
  }

  lemma WentExactly(rows: seq<Row>, mapping: set<Column>, existing: set<string>, done: seq<Item>, k: nat, name: string)
    requires ReadFrom(rows, mapping, existing, done)
    ensures Went(rows, done, k, name) <==> LetThrough(done, k, name)
  {}

  lemma ModeReads(row: Row, mapping: set<Column>, existing: set<string>, p: Product)
    requires Fit(row, mapping, existing) && TrackingColumn in mapping
    ensures ModeWritten(p, row) <==> Some(p.tracking) == ModeOf(DataOf(row, mapping).tracking)
  {
    assert "quantity"[0] != "individual"[0];
  }

  /** A new product holds exactly what the first row of its name that went through says. */
  lemma NewProductIsWritten(rows: seq<Row>, mapping: set<Column>, existing: set<string>, before: Products, now: Products,
                            done: seq<Item>, id: nat) returns (k: nat)
    requires ReadFrom(rows, mapping, existing, done) && Sourced(before, now, done, |rows|, TrackingColumn in mapping)
    requires id in now && id !in before && CleanStock(now[id])
    ensures FirstWent(rows, done, k, now[id].name) && WrittenIn(now[id], rows[k], mapping)
  {
    k :| FirstLet(done, |rows|, k, now[id].name) && MadeOf(now[id], done[k].data, TrackingColumn in mapping);
    FirstReads(rows, mapping, existing, done, k, now[id].name);
    AllBuckets(now[id], done[k].data, TrackingColumn in mapping);
    CellsWritten(rows[k], mapping, existing, now[id]);
  }

  lemma FirstReads(rows: seq<Row>, mapping: set<Column>, existing: set<string>, done: seq<Item>, k: nat, name: string)
    requires ReadFrom(rows, mapping, existing, done) && FirstLet(done, |rows|, k, name)
    ensures FirstWent(rows, done, k, name)
  {
    forall m: nat ensures Went(rows, done, m, name) <==> LetThrough(done, m, name) {
      WentExactly(rows, mapping, existing, done, m, name);
    }
  }

  lemma AllBuckets(p: Product, data: Data, modeMapped: bool)
    requires MadeOf(p, data, modeMapped)
    ensures HasAll(p)
  {
    EveryBucket();
  }

  lemma CellsWritten(row: Row, mapping: set<Column>, existing: set<string>, p: Product)
    requires Fit(row, mapping, existing) && MadeOf(p, DataOf(row, mapping), TrackingColumn in mapping) && CleanStock(p)
    requires HasAll(p)
    ensures WrittenIn(p, row, mapping)
  {
    EveryBucket();
    forall b: Bucket ensures b in p.buckets && p.buckets[b] == Amounts(row, mapping, b) && Amount(p.buckets, b) == p.buckets[b] {
      AmountIs(row, mapping, b);
    }
    assert Protected(Reserved) && Protected(Issued) && Protected(Damaged) && Protected(Lost);
    assert Holds(row, Total, Amounts(row, mapping, Total)) && Holds(row, Available, Amounts(row, mapping, Available));
  }

  /** What an import that is applied means. `done` are its rows as reported. */
  ghost predicate Meant(before: Products, now: Products, rows: seq<Row>, mapping: set<Column>, held: set<nat>,
                        unprepared: nat -> bool, trouble: nat -> Trouble, done: seq<Item>)
  {
    && |done| == |rows|
    // A row fails exactly if it is not in order, its image is not ready, it meets trouble, or it wants
    // to change how a pinned product is tracked.
    && (forall k: nat | k < |rows| :: done[k].action.Error? <==>
          || !Fit(rows[k], mapping, Names(before)) || unprepared(k) || trouble(k) != Clear
          || ModeRefused(now, rows[k], mapping, held))
    // Every other row's name is exactly one product's.
    && (forall k: nat | k < |rows| && !done[k].action.Error? :: exists id :: OnlyOne(now, id, NameText(Read(rows[k], NameColumn))))
    // A new product is made of the first such row of its name; an old one keeps name and stock.
    && (forall id | id in now && id !in before ::
          exists k: nat :: FirstWent(rows, done, k, now[id].name) && WrittenIn(now[id], rows[k], mapping))
    && (forall id | id in before :: id in now && now[id].name == before[id].name && now[id].buckets == before[id].buckets)
    // Where a mode is mapped, the last such row decides how the product is tracked.
    && (TrackingColumn in mapping ==>
          forall id, k: nat | id in now && LastWent(rows, done, k, now[id].name) :: ModeWritten(now[id], rows[k]))
    && (forall id | id in before && (TrackingColumn !in mapping || forall k: nat :: !Went(rows, done, k, now[id].name)) ::
          now[id].tracking == before[id].tracking)
  }

  lemma ModesWritten(before: Products, now: Products, rows: seq<Row>, mapping: set<Column>, existing: set<string>, done: seq<Item>)
    requires ReadFrom(rows, mapping, existing, done) && Tracked(before, now, done, |rows|, TrackingColumn in mapping)
    requires forall id | id in before :: id in now
    ensures TrackingColumn in mapping ==>
              forall id, k: nat | id in now && LastWent(rows, done, k, now[id].name) :: ModeWritten(now[id], rows[k])
    ensures forall id | id in before && (TrackingColumn !in mapping || forall k: nat :: !Went(rows, done, k, now[id].name)) ::
              now[id].tracking == before[id].tracking
  {
    forall k: nat, name ensures Went(rows, done, k, name) <==> LetThrough(done, k, name) {
      WentExactly(rows, mapping, existing, done, k, name);
    }
    if TrackingColumn in mapping {
      forall id, k: nat | id in now && LastWent(rows, done, k, now[id].name) ensures ModeWritten(now[id], rows[k]) {
        assert LastLet(done, |rows|, k, now[id].name);
        ModeReads(rows[k], mapping, existing, now[id]);
      }
    }
  }

  lemma RefusalReads(now: Products, row: Row, mapping: set<Column>, existing: set<string>, held: set<nat>, item: Item)
    requires Fit(row, mapping, existing) && item.data == DataOf(row, mapping)
    ensures Refused(now, item, TrackingColumn in mapping, held) <==> ModeRefused(now, row, mapping, held)
  {
    if TrackingColumn in mapping {
      forall id | id in now ensures ModeWritten(now[id], row) <==> Some(now[id].tracking) == ModeOf(item.data.tracking) {
        ModeReads(row, mapping, existing, now[id]);
      }
    }
  }

  lemma FailuresRead(before: Products, now: Products, rows: seq<Row>, mapping: set<Column>, held: set<nat>,
                     unprepared: nat -> bool, trouble: nat -> Trouble, done: seq<Item>, k: nat)
    requires k < |rows|
    requires Failing(now, Prepared(rows, mapping, Names(before), unprepared), done, |rows|, TrackingColumn in mapping, held, trouble)
    ensures done[k].action.Error? <==>
              || !Fit(rows[k], mapping, Names(before)) || unprepared(k) || trouble(k) != Clear
              || ModeRefused(now, rows[k], mapping, held)
  {
    PreparedAt(rows, mapping, Names(before), unprepared, k);
    if Fit(rows[k], mapping, Names(before)) {
      RefusalReads(now, rows[k], mapping, Names(before), held, Prepared(rows, mapping, Names(before), unprepared)[k]);
    }
  }

  /** Whatever the catalogue, the rows and the trouble on the way: an import that is not aborted means
      just that, and it is aborted exactly by a row in order whose name two products have. */
  lemma ImportMeans(before: Products, nextId: nat, rows: seq<Row>, mapping: set<Column>, held: set<nat>,
                    unprepared: nat -> bool, trouble: nat -> Trouble)
    requires Below(before, nextId)
    ensures var items := Prepared(rows, mapping, Names(before), unprepared);
            var end := AfterRows(before, nextId, items, |rows|, TrackingColumn in mapping, held, trouble);
            if (exists k: nat :: k < |rows| && Fit(rows[k], mapping, Names(before)) && !unprepared(k) && !trouble(k).Early?
                                 && |Matching(before, NameText(Read(rows[k], NameColumn)))| > 1)
            then end.aborted
            else !end.aborted && Meant(before, end.products, rows, mapping, held, unprepared, trouble, end.tally.items)
  {
    var (existing, items, mapped) := (Names(before), Prepared(rows, mapping, Names(before), unprepared), TrackingColumn in mapping);
    var end := AfterRows(before, nextId, items, |rows|, mapped, held, trouble);
    DoneReads(rows, mapping, existing, unprepared, items);
    AbortedExactly(before, nextId, items, |rows|, mapped, held, trouble);
    forall k: nat | k < |rows|
      ensures Ambiguity(before, items[k], trouble(k)) <==>
                Fit(rows[k], mapping, existing) && !unprepared(k) && !trouble(k).Early?
                && |Matching(before, NameText(Read(rows[k], NameColumn)))| > 1
    {
      PreparedAt(rows, mapping, existing, unprepared, k);
    }
    if !end.aborted {
      RowsMean(before, nextId, items, |rows|, mapped, held, trouble);
      EndMeans(before, end, rows, mapping, held, unprepared, trouble);
    }
  }

  lemma EndMeans(before: Products, end: Import, rows: seq<Row>, mapping: set<Column>, held: set<nat>,
                 unprepared: nat -> bool, trouble: nat -> Trouble)
    requires Meaning(before, end, Prepared(rows, mapping, Names(before), unprepared), |rows|, TrackingColumn in mapping, held, trouble)
    ensures Meant(before, end.products, rows, mapping, held, unprepared, trouble, end.tally.items)
  {
    var (now, done, existing) := (end.products, end.tally.items, Names(before));
    DoneReads(rows, mapping, existing, unprepared, done);
    forall k: nat | k < |rows|
      ensures done[k].action.Error? <==>
                || !Fit(rows[k], mapping, existing) || unprepared(k) || trouble(k) != Clear
                || ModeRefused(now, rows[k], mapping, held)
    {
      FailuresRead(before, now, rows, mapping, held, unprepared, trouble, done, k);
    }
    forall id | id in now && id !in before
      ensures exists k: nat :: FirstWent(rows, done, k, now[id].name) && WrittenIn(now[id], rows[k], mapping)
    {
      NewIsClean(before, now, rows, mapping, existing, done, id);
      var k := NewProductIsWritten(rows, mapping, existing, before, now, done, id);
    }
    ModesWritten(before, now, rows, mapping, existing, done);
    forall k: nat | k < |rows| && !done[k].action.Error?
      ensures exists id :: OnlyOne(now, id, NameText(Read(rows[k], NameColumn)))
    {
      assert exists id :: OnlyOne(now, id, NameText(done[k].data.name));
    }
  }

  lemma NewIsClean(before: Products, now: Products, rows: seq<Row>, mapping: set<Column>, existing: set<string>, done: seq<Item>, id: nat)
    requires ReadFrom(rows, mapping, existing, done) && Sourced(before, now, done, |rows|, TrackingColumn in mapping)
    requires id in now && id !in before && existing == Names(before) && Grows(before, now)
    ensures CleanStock(now[id])
  {
    var k: nat :| FirstLet(done, |rows|, k, now[id].name) && MadeOf(now[id], done[k].data, TrackingColumn in mapping);
    EveryBucket();
    forall b: Bucket ensures Amount(now[id].buckets, b) == Amounts(rows[k], mapping, b) { AmountIs(rows[k], mapping, b); }
    assert !Known(rows[k], existing) by {
      assert forall other | other in before :: before[other].name != now[id].name;
    }
    assert Holds(rows[k], Available, Amounts(rows[k], mapping, Available));
  }

  // ---- The reported errors ------------------------------------------------------------------------

  lemma {:induction false} ReportedRows(rows: seq<Row>, n: nat, mapping: set<Column>, existing: set<string>, e: nat)
    requires n <= |rows|
    ensures e in Reported(rows, n, mapping, existing) <==> 2 <= e < n + 2 && AllFaults(rows[e - 2], mapping, existing) != {}
  {
    if n > 0 { ReportedRows(rows, n - 1, mapping, existing, e); }
  }

  lemma {:induction false} UnreadyRows(items: seq<Item>, n: nat, unprepared: nat -> bool, e: nat)
    requires n <= |items| && forall k | 0 <= k < |items| :: items[k].row == k + 2
    ensures e in Unready(items, n, unprepared) <==> 2 <= e < n + 2 && !items[e - 2].action.Error? && unprepared(e - 2)
  {
    if n > 0 { UnreadyRows(items, n - 1, unprepared, e); }
  }

  lemma {:induction false} TallyRows(before: Products, nextId: nat, items: seq<Item>, n: nat, modeMapped: bool, held: set<nat>,
                                     trouble: nat -> Trouble, e: nat)
    requires n <= |items| && Moded(items) && Below(before, nextId) && forall k | 0 <= k < |items| :: items[k].row == k + 2
    requires !AfterRows(before, nextId, items, n, modeMapped, held, trouble).aborted
    ensures var t := AfterRows(before, nextId, items, n, modeMapped, held, trouble).tally;
            e in t.errors <==> 2 <= e < n + 2 && !items[e - 2].action.Error? && t.items[e - 2].action.Error?
  {
    if n > 0 {
      TallyRows(before, nextId, items, n - 1, modeMapped, held, trouble, e);
      RowsMean(before, nextId, items, n - 1, modeMapped, held, trouble);
      TallyRow(AfterRows(before, nextId, items, n - 1, modeMapped, held, trouble), items, n - 1, modeMapped, held, trouble(n - 1), e);
    }
  }

  lemma TallyRow(s: Import, items: seq<Item>, n: nat, modeMapped: bool, held: set<nat>, trouble: Trouble, e: nat)
    requires n < |items| && items[n].row == n + 2 && s.tally.done == n && Demotes(items, s.tally.items) && s.tally.items[n] == items[n]
    requires e in s.tally.errors <==> 2 <= e < n + 2 && !items[e - 2].action.Error? && s.tally.items[e - 2].action.Error?
    requires !RowStep(s, items[n], modeMapped, held, trouble).aborted
    ensures var t := RowStep(s, items[n], modeMapped, held, trouble).tally;
            e in t.errors <==> 2 <= e < n + 3 && !items[e - 2].action.Error? && t.items[e - 2].action.Error?
  {}

  /** An applied import names exactly the rows that failed, but for those whose only defect is a false
      name; row numbers start below the heading. */
  lemma ErrorsNameRows(before: Products, nextId: nat, rows: seq<Row>, mapping: set<Column>, held: set<nat>,
                       unprepared: nat -> bool, trouble: nat -> Trouble, e: nat)
    requires Below(before, nextId)
    requires !AfterRows(before, nextId, Prepared(rows, mapping, Names(before), unprepared), |rows|, TrackingColumn in mapping, held, trouble).aborted
    ensures var items := Prepared(rows, mapping, Names(before), unprepared);
            var t := AfterRows(before, nextId, items, |rows|, TrackingColumn in mapping, held, trouble).tally;
            var errors := Reported(rows, |rows|, mapping, Names(before))
                            + Unready(Previewed(rows, |rows|, mapping, Names(before)), |rows|, unprepared) + t.errors;
            e in errors <==> 2 <= e < |rows| + 2 && t.items[e - 2].action.Error? && !Unreported(rows[e - 2], mapping, Names(before))
  {
    var (existing, mapped) := (Names(before), TrackingColumn in mapping);
    var (previewed, items) := (Previewed(rows, |rows|, mapping, existing), Prepared(rows, mapping, existing, unprepared));
    DoneReads(rows, mapping, existing, unprepared, items);
    RowNumbers(rows, mapping, existing, unprepared);
    ReportedRows(rows, |rows|, mapping, existing, e);
    UnreadyRows(previewed, |rows|, unprepared, e);
    TallyRows(before, nextId, items, |rows|, mapped, held, trouble, e);
    if 2 <= e < |rows| + 2 {
      DemotedError(before, nextId, rows, mapping, held, unprepared, trouble, e - 2);
    }
  }

  lemma RowNumbers(rows: seq<Row>, mapping: set<Column>, existing: set<string>, unprepared: nat -> bool)
    ensures forall k | 0 <= k < |rows| :: Previewed(rows, |rows|, mapping, existing)[k].row == k + 2
    ensures forall k | 0 <= k < |rows| :: Prepared(rows, mapping, existing, unprepared)[k].row == k + 2
  {
    forall k: nat | k < |rows|
      ensures Previewed(rows, |rows|, mapping, existing)[k].row == k + 2 && Prepared(rows, mapping, existing, unprepared)[k].row == k + 2
    {
      PreparedAt(rows, mapping, existing, unprepared, k);
      PreviewedAt(rows, |rows|, mapping, existing, k);
    }
  }

  /** How a row comes to be an error. */
  lemma DemotedError(before: Products, nextId: nat, rows: seq<Row>, mapping: set<Column>, held: set<nat>,
                     unprepared: nat -> bool, trouble: nat -> Trouble, k: nat)
    requires Below(before, nextId) && k < |rows|
    requires !AfterRows(before, nextId, Prepared(rows, mapping, Names(before), unprepared), |rows|, TrackingColumn in mapping, held, trouble).aborted
    ensures var (previewed, items) := (Previewed(rows, |rows|, mapping, Names(before)), Prepared(rows, mapping, Names(before), unprepared));
            var t := AfterRows(before, nextId, items, |rows|, TrackingColumn in mapping, held, trouble).tally;
            && (previewed[k].action.Error? <==> AllFaults(rows[k], mapping, Names(before)) != {} || Unreported(rows[k], mapping, Names(before)))
            && (items[k].action.Error? <==> previewed[k].action.Error? || unprepared(k))
            && (items[k].action.Error? ==> t.items[k].action.Error?)
  {
    DoneReads(rows, mapping, Names(before), unprepared, Prepared(rows, mapping, Names(before), unprepared));
    RowsMean(before, nextId, Prepared(rows, mapping, Names(before), unprepared), |rows|, TrackingColumn in mapping, held, trouble);
    PreviewedAt(rows, |rows|, mapping, Names(before), k);
    ErrorIffReported(rows[k], mapping, Names(before), k + 2);
  }
}
