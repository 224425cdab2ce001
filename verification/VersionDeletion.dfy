/** Deleting exactly the versions of one key that a complete, unambiguous listing showed.

    The listing is an arbitrary sequence of pages, malformed ones included. The store is shared:
    new versions may appear at any time, under identifiers no listing has shown. */
module VersionDeletion {
  import opened Common

  type Key = string
  type VersionId = string

  const BATCH: nat := 1000

  /** None stands for a missing or ill-typed field. */
  datatype Item = Item(key: Option<Key>, version: Option<VersionId>)

  datatype Page = NotAPage
                | Page(truncated: Option<bool>, versions: Option<seq<Item>>, markers: Option<seq<Item>>,
                       nextKey: Option<string>, nextVersion: Option<string>)

  type Marker = (string, string)

  // ---- What a listing says -------------------------------------------------------------------

  predicate ItemOk(item: Item, key: Key) {
    item.key.Some? && (item.key.value == key ==> item.version.Some? && Strip(item.version.value) != "")
  }

  /** The identifiers a group gives for the key, in order. */
  function Ids(group: seq<Item>, key: Key): seq<VersionId>
    decreases |group|
  {
    if group == [] then []
    else
      var last := group[|group| - 1];
      Ids(group[..|group| - 1], key)
      + if last.key == Some(key) && last.version.Some? then [last.version.value] else []
  }

  predicate Distinct<T(==)>(s: seq<T>) {
    forall i, j | 0 <= i < j < |s| :: s[i] != s[j]
  }

  predicate PageOk(page: Page, key: Key) {
    && page.Page? && page.truncated.Some? && page.versions.Some? && page.markers.Some?
    && (forall i | 0 <= i < |page.versions.value| :: ItemOk(page.versions.value[i], key))
    && (forall i | 0 <= i < |page.markers.value| :: ItemOk(page.markers.value[i], key))
  }

  function DataIds(page: Page, key: Key): seq<VersionId> {
    if page.Page? && page.versions.Some? then Ids(page.versions.value, key) else []
  }

  function MarkerIds(page: Page, key: Key): seq<VersionId> {
    if page.Page? && page.markers.Some? then Ids(page.markers.value, key) else []
  }

  function PageIds(page: Page, key: Key): seq<VersionId> {
    DataIds(page, key) + MarkerIds(page, key)
  }

  /** The identifiers the first n pages of a listing give, in order. */
  function AllIds(listing: nat -> Page, n: nat, key: Key): seq<VersionId> {
    if n == 0 then [] else AllIds(listing, n - 1, key) + PageIds(listing(n - 1), key)
  }

  function AllData(listing: nat -> Page, n: nat, key: Key): set<VersionId> {
    if n == 0 then {} else AllData(listing, n - 1, key) + Members(DataIds(listing(n - 1), key))
  }

  function Members(s: seq<VersionId>): set<VersionId> {
    set v | v in s
  }

  predicate MarkerOk(page: Page) {
    && page.Page? && page.nextKey.Some? && page.nextKey.value != ""
    && page.nextVersion.Some? && page.nextVersion.value != ""
  }

  function MarkerOf(page: Page): Marker
    requires MarkerOk(page)
  {
    (page.nextKey.value, page.nextVersion.value)
  }

  /** Where the first n pages pointed. */
  function MarkersOf(listing: nat -> Page, n: nat): set<Marker> {
    if n == 0 then {}
    else MarkersOf(listing, n - 1) + if MarkerOk(listing(n - 1)) then {MarkerOf(listing(n - 1))} else {}
  }

  /** A page that leads to another one not asked for before. */
  predicate Continues(listing: nat -> Page, i: nat) {
    && listing(i).Page? && listing(i).truncated == Some(true)
    && MarkerOk(listing(i)) && MarkerOf(listing(i)) !in MarkersOf(listing, i)
  }

  predicate LeadsOn(listing: nat -> Page, i: nat, key: Key) {
    PageOk(listing(i), key) && Continues(listing, i)
  }

  /** The first n pages are a complete listing nothing in which is malformed or repeated. */
  predicate Clean(listing: nat -> Page, n: nat, key: Key) {
    && n > 0
    && (forall i {:trigger LeadsOn(listing, i, key)} | 0 <= i < n - 1 :: LeadsOn(listing, i, key))
    && PageOk(listing(n - 1), key) && listing(n - 1).truncated == Some(false)
    && Distinct(AllIds(listing, n, key))
  }

  /** However far it is read, the listing never becomes one that may be acted on. */
  ghost predicate NeverClean(listing: nat -> Page, key: Key) {
    forall m: nat :: !Clean(listing, m, key)
  }

  /** The markers a listing can ever return are finitely many. */
  ghost predicate Within(listing: nat -> Page, space: set<Marker>) {
    forall i: nat :: MarkerOk(listing(i)) ==> MarkerOf(listing(i)) in space
  }

  datatype Snapshot = Refused | Snapshot(objects: seq<VersionId>, data: set<VersionId>)

  predicate Names(item: Item, key: Key, v: VersionId) {
    item.key == Some(key) && item.version == Some(v)
  }

  lemma {:induction false} IdsExactly(group: seq<Item>, key: Key, v: VersionId)
    ensures v in Ids(group, key) <==> exists i :: 0 <= i < |group| && Names(group[i], key, v)
    decreases |group|
  {
    if group != [] {
      var front, last := group[..|group| - 1], group[|group| - 1];
      IdsExactly(front, key, v);
      assert Names(last, key, v) ==> Names(group[|group| - 1], key, v);
      if i :| 0 <= i < |front| && Names(front[i], key, v) { assert Names(group[i], key, v); }
    }
  }

  predicate NamedIn(group: seq<Item>, key: Key, v: VersionId) {
    exists i :: 0 <= i < |group| && Names(group[i], key, v)
  }

  /** The page lists the version as data, or as a delete marker. */
  predicate ListsData(page: Page, key: Key, v: VersionId) {
    page.Page? && page.versions.Some? && NamedIn(page.versions.value, key, v)
  }

  predicate ListsMarker(page: Page, key: Key, v: VersionId) {
    page.Page? && page.markers.Some? && NamedIn(page.markers.value, key, v)
  }

  predicate Lists(page: Page, key: Key, v: VersionId) {
    ListsData(page, key, v) || ListsMarker(page, key, v)
  }

  ghost predicate ListedAmong(listing: nat -> Page, n: nat, key: Key, v: VersionId) {
    exists i: nat :: i < n && Lists(listing(i), key, v)
  }

  ghost predicate DataAmong(listing: nat -> Page, n: nat, key: Key, v: VersionId) {
    exists i: nat :: i < n && ListsData(listing(i), key, v)
  }

  /** The identifiers gathered from the first pages are those listed among them. */
  ghost predicate Faithful(listing: nat -> Page, n: nat, key: Key, v: VersionId) {
    && (v in AllIds(listing, n, key) <==> ListedAmong(listing, n, key, v))
    && (v in AllData(listing, n, key) <==> DataAmong(listing, n, key, v))
  }

  /** What a listing's first pages give is exactly what some of them list, and its data versions exactly
      what some of them list as data. */
  lemma {:induction false} ListedExactly(listing: nat -> Page, n: nat, key: Key, v: VersionId)
    ensures Faithful(listing, n, key, v)
  {
    if n == 0 {
      NothingListed(listing, key, v);
    } else {
      ListedExactly(listing, n - 1, key, v);
      ListedNext(listing, n - 1, n, key, v);
    }
  }

  lemma NothingListed(listing: nat -> Page, key: Key, v: VersionId)
    ensures Faithful(listing, 0, key, v)
  {}

  lemma ListedNext(listing: nat -> Page, n: nat, m: nat, key: Key, v: VersionId)
    requires Faithful(listing, n, key, v) && m == n + 1
    ensures Faithful(listing, m, key, v)
  {
    var (ids, more) := (AllIds(listing, n, key), PageIds(listing(n), key));
    PageLists(listing(n), key, v);
    PagesGrow(listing, n, key);
    OneMorePage(listing, n, key, v);
    assert v in ids + more <==> v in ids || v in more;
    assert v in Members(DataIds(listing(n), key)) <==> v in DataIds(listing(n), key);
  }

  lemma OneMorePage(listing: nat -> Page, n: nat, key: Key, v: VersionId)
    ensures ListedAmong(listing, n + 1, key, v) <==> ListedAmong(listing, n, key, v) || Lists(listing(n), key, v)
    ensures DataAmong(listing, n + 1, key, v) <==> DataAmong(listing, n, key, v) || ListsData(listing(n), key, v)
  {}

  lemma PageLists(page: Page, key: Key, v: VersionId)
    ensures v in DataIds(page, key) <==> ListsData(page, key, v)
    ensures v in PageIds(page, key) <==> Lists(page, key, v)
  {
    if page.Page? && page.versions.Some? { IdsExactly(page.versions.value, key, v); }
    if page.Page? && page.markers.Some? { IdsExactly(page.markers.value, key, v); }
  }

  // ---- Gathering -----------------------------------------------------------------------------

  /** Add one group's items for the key; stop at the first bad or repeated one. */
  method AddGroup(group: seq<Item>, key: Key, objects: seq<VersionId>) returns (ok: bool, more: seq<VersionId>)
    requires Distinct(objects)
    ensures ok <==> (forall i | 0 <= i < |group| :: ItemOk(group[i], key)) && Distinct(objects + Ids(group, key))
    ensures ok ==> more == objects + Ids(group, key)
  {
    more := objects;
    assert objects + Ids(group[..0], key) == objects;
    for i := 0 to |group|
      invariant forall j | 0 <= j < i :: ItemOk(group[j], key)
      invariant more == objects + Ids(group[..i], key) && Distinct(more)
    {
      var item := group[i];
      assert group[..i + 1][..i] == group[..i];
      IdsPrefix(group, i + 1, key);
      if item.key.None? {
        return false, more;
      }
      if item.key.value == key {
        if item.version.None? || Strip(item.version.value) == "" {
          return false, more;
        }
        assert Ids(group[..i + 1], key) == Ids(group[..i], key) + [item.version.value];
        assert objects + Ids(group[..i + 1], key) == more + [item.version.value];
        if item.version.value in more {
          RepeatedLast(more, item.version.value);
          RepeatedPrefix(objects, Ids(group[..i + 1], key), Ids(group, key));
          return false, more;
        }
        more := more + [item.version.value];
      }
    }
    assert group[..|group|] == group;
    return true, more;
  }

  lemma {:induction false} IdsPrefix(group: seq<Item>, n: nat, key: Key)
    requires n <= |group|
    ensures |Ids(group[..n], key)| <= |Ids(group, key)|
    ensures Ids(group[..n], key) == Ids(group, key)[..|Ids(group[..n], key)|]
    decreases |group|
  {
    if n < |group| {
      IdsPrefix(group[..|group| - 1], n, key);
      assert group[..|group| - 1][..n] == group[..n];
    } else {
      assert group[..n] == group;
    }
  }

  lemma RepeatedLast(s: seq<VersionId>, v: VersionId)
    requires v in s
    ensures !Distinct(s + [v])
  {
    var p :| 0 <= p < |s| && s[p] == v;
    assert (s + [v])[p] == (s + [v])[|s|];
  }

  lemma RepeatedPrefix(front: seq<VersionId>, part: seq<VersionId>, whole: seq<VersionId>)
    requires |part| <= |whole| && part == whole[..|part|] && !Distinct(front + part)
    ensures !Distinct(front + whole)
  {
    var i, j :| 0 <= i < j < |front + part| && (front + part)[i] == (front + part)[j];
    assert (front + whole)[i] == (front + part)[i] && (front + whole)[j] == (front + part)[j];
  }

  method AddPage(page: Page, key: Key, objects: seq<VersionId>)
    returns (ok: bool, more: seq<VersionId>, data: set<VersionId>)
    requires Distinct(objects)
    ensures ok <==> PageOk(page, key) && Distinct(objects + PageIds(page, key))
    ensures ok ==> more == objects + PageIds(page, key)
    ensures ok ==> data == Members(DataIds(page, key))
  {
    more, data := objects, {};
    assert objects + PageIds(page, key) == (objects + DataIds(page, key)) + MarkerIds(page, key);
    if page.NotAPage? || page.truncated.None? || page.versions.None? {
      return false, more, data;
    }
    var fine: bool;
    fine, more := AddGroup(page.versions.value, key, objects);
    if !fine {
      PrefixDistinct(objects + DataIds(page, key), MarkerIds(page, key));
      return false, more, data;
    }
    assert more[|objects|..] == DataIds(page, key);
    data := Members(more[|objects|..]);
    if page.markers.None? {
      return false, more, data;
    }
    fine, more := AddGroup(page.markers.value, key, more);
    return fine, more, data;
  }

  lemma PrefixDistinct(front: seq<VersionId>, rest: seq<VersionId>)
    ensures Distinct(front + rest) ==> Distinct(front)
  {
    if Distinct(front + rest) {
      forall i, j | 0 <= i < j < |front| ensures front[i] != front[j] {
        assert (front + rest)[i] != (front + rest)[j];
      }
    }
  }

  /** Gather every page before anything is decided; n pages were read. */
  method AcceptedVersionSnapshot(key: Key, listing: nat -> Page, ghost space: set<Marker>)
    returns (snapshot: Snapshot, n: nat)
    requires Within(listing, space)
    ensures snapshot.Snapshot? ==>
              Clean(listing, n, key) && snapshot == Snapshot(AllIds(listing, n, key), AllData(listing, n, key))
    ensures snapshot.Refused? ==> n > 0 && Unusable(listing, n - 1, key)
  {
    var objects: seq<VersionId>, data: set<VersionId>, markers: set<Marker> := [], {}, {};
    var i: nat := 0;
    while true
      invariant SoFar(listing, i, key)
      invariant objects == AllIds(listing, i, key) && Distinct(objects) && data == AllData(listing, i, key)
      invariant markers == MarkersOf(listing, i) && markers <= space
      decreases |space - markers|
    {
      var page := listing(i);
      n := i + 1;
      var ok, more, ids := AddPage(page, key, objects);
      if !ok {
        return Refused, n;
      }
      PagesGrow(listing, i, key);
      objects, data := more, data + ids;
      if !page.truncated.value {
        Finished(listing, i, key);
        return Snapshot(objects, data), n;
      }
      if !MarkerOk(page) || MarkerOf(page) in markers {
        return Refused, n;
      }
      OneMoreMarker(space, markers, MarkerOf(page));
      GoesOn(listing, i, key);
      markers := markers + {MarkerOf(page)};
      i := i + 1;
    }
  }

  /** The first i pages are in order and each leads on. */
  ghost predicate SoFar(listing: nat -> Page, i: nat, key: Key) {
    forall j {:trigger LeadsOn(listing, j, key)} | 0 <= j < i :: LeadsOn(listing, j, key)
  }

  /** Page i is the first at which the listing turns out malformed or repeating. */
  ghost predicate Unusable(listing: nat -> Page, i: nat, key: Key) {
    && SoFar(listing, i, key)
    && (|| !PageOk(listing(i), key) || !Distinct(AllIds(listing, i + 1, key))
        || (listing(i).truncated == Some(true) && !Continues(listing, i)))
  }

  lemma Finished(listing: nat -> Page, i: nat, key: Key)
    requires SoFar(listing, i, key) && PageOk(listing(i), key) && listing(i).truncated == Some(false)
    requires Distinct(AllIds(listing, i + 1, key))
    ensures Clean(listing, i + 1, key)
  {}

  lemma GoesOn(listing: nat -> Page, i: nat, key: Key)
    requires SoFar(listing, i, key) && PageOk(listing(i), key) && Continues(listing, i)
    ensures SoFar(listing, i + 1, key)
  {}

  lemma PagesGrow(listing: nat -> Page, i: nat, key: Key)
    ensures AllIds(listing, i + 1, key) == AllIds(listing, i, key) + PageIds(listing(i), key)
    ensures AllData(listing, i + 1, key) == AllData(listing, i, key) + Members(DataIds(listing(i), key))
    ensures MarkersOf(listing, i + 1)
         == MarkersOf(listing, i) + if MarkerOk(listing(i)) then {MarkerOf(listing(i))} else {}
  {}

  lemma OneMoreMarker(space: set<Marker>, markers: set<Marker>, marker: Marker)
    requires marker in space && marker !in markers
    ensures |space - (markers + {marker})| < |space - markers|
  {
    assert space - (markers + {marker}) == (space - markers) - {marker};
  }

  lemma {:induction false} AllIdsPrefix(listing: nat -> Page, n: nat, m: nat, key: Key)
    requires n <= m && Distinct(AllIds(listing, m, key))
    ensures Distinct(AllIds(listing, n, key))
    decreases m
  {
    if n < m {
      PrefixDistinct(AllIds(listing, m - 1, key), PageIds(listing(m - 1), key));
      AllIdsPrefix(listing, n, m - 1, key);
    }
  }

  /** No shorter prefix is complete, and every longer one contains the fault. */
  lemma UnusableIsNeverClean(listing: nat -> Page, i: nat, key: Key)
    requires Unusable(listing, i, key)
    ensures NeverClean(listing, key)
  {
    forall m: nat ensures !Clean(listing, m, key) {
      if 0 < m <= i {
        assert LeadsOn(listing, m - 1, key);
      } else if m > i {
        FaultStays(listing, i, m, key);
      }
    }
  }

  lemma FaultStays(listing: nat -> Page, i: nat, m: nat, key: Key)
    requires Unusable(listing, i, key) && m > i
    ensures !Clean(listing, m, key)
  {
    if Distinct(AllIds(listing, m, key)) { AllIdsPrefix(listing, i + 1, m, key); }
    assert !LeadsOn(listing, i, key) || !Distinct(AllIds(listing, i + 1, key));
  }

  // ---- Deleting ------------------------------------------------------------------------------

  /** What a delete call answers: whether it confirms everything, and else what it had removed. */
  datatype Reply = Reply(confirmed: bool, removed: set<VersionId>)

  datatype Outcome = Unconfirmed | Cleaned(data: set<VersionId>)

  /** Every batch of so many identifiers is confirmed. */
  ghost predicate AllConfirmed(replies: nat -> Reply, count: nat) {
    forall i: nat | i * BATCH < count :: replies(i).confirmed
  }

  lemma NextConfirmed(replies: nat -> Reply, start: nat, stop: nat)
    requires start % BATCH == 0 && start < stop <= start + BATCH
    ensures AllConfirmed(replies, stop) <==> AllConfirmed(replies, start) && replies(start / BATCH).confirmed
  {
    assert start / BATCH * BATCH == start;
    forall i: nat | i * BATCH < stop ensures i * BATCH < start || i == start / BATCH {}
  }

  lemma MoreConfirmed(replies: nat -> Reply, stop: nat, count: nat)
    requires stop <= count && AllConfirmed(replies, count)
    ensures AllConfirmed(replies, stop)
  {}

  class VersionStore {
    var versions: set<(Key, VersionId)>
    ghost var arrived: set<(Key, VersionId)>   // versions that appeared during the current cleanup
    ghost var shown: set<VersionId>            // identifiers the current cleanup's listing has shown

    constructor (versions: set<(Key, VersionId)>)
      ensures this.versions == versions && arrived == {} && shown == {}
    {
      this.versions, arrived, shown := versions, {}, {};
    }

    /** Other writers add versions, under identifiers no listing has shown; callers know only this. */
    method Interference()
      modifies this`versions, this`arrived
      ensures versions == old(versions) + (arrived - old(arrived)) && old(arrived) <= arrived
      ensures forall v | v in arrived - old(arrived) :: v.1 !in shown
    {}

    method DeleteObjects(key: Key, batch: seq<VersionId>, reply: Reply) returns (confirmed: bool)
      modifies this`versions
      ensures confirmed == reply.confirmed
      ensures versions <= old(versions)
      ensures forall v | v in old(versions) :: v in versions || (v.0 == key && v.1 in batch)
      ensures confirmed ==> forall v | v in batch :: (key, v) !in versions
    {
      versions := set v | v in versions && !(v.0 == key && v.1 in batch && (reply.confirmed || v.1 in reply.removed));
      return reply.confirmed;
    }

    /** Delete exactly a listed snapshot, and nothing at all on an unusable listing. `before` is the
        store when the listing ended, `arrived` what came later. */
    method DeleteAcceptedObjectVersions(key: Key, enabled: bool, listing: nat -> Page, replies: nat -> Reply,
                                        ghost space: set<Marker>)
      returns (outcome: Outcome, ghost before: set<(Key, VersionId)>, ghost n: nat, ghost batches: seq<seq<VersionId>>)
      requires Within(listing, space) && shown == {}
      modifies this
      ensures old(versions) <= before
      // An unusable listing, or a store without versioning, deletes nothing.
      ensures !enabled || NeverClean(listing, key) ==>
                outcome.Unconfirmed? && batches == [] && versions == before
      ensures batches != [] || versions != before ==> Clean(listing, n, key) && shown == Members(AllIds(listing, n, key))
      // Whatever happens, only listed versions of the key go, and versions that came later stay.
      ensures versions <= before + arrived && arrived <= versions
      ensures forall v | v in before :: v in versions || (v.0 == key && v.1 in shown)
      // A normal return means all of them went, in batches that partition the snapshot.
      ensures outcome.Cleaned? ==>
                && Clean(listing, n, key) && outcome.data == AllData(listing, n, key)
                && (forall v | v in AllIds(listing, n, key) :: (key, v) !in versions)
                && Flat(batches) == AllIds(listing, n, key)
                && (forall b | b in batches :: 0 < |b| <= BATCH)
      // It is returned exactly for a clean listing of a versioned store whose batches are all confirmed.
      ensures outcome.Cleaned? <==>
                enabled && !NeverClean(listing, key) && AllConfirmed(replies, |AllIds(listing, n, key)|)
    {
      n, batches := 0, [];
      Interference();
      before, arrived := versions, {};
      if !enabled {
        return Unconfirmed, before, n, batches;
      }
      var snapshot, read := AcceptedVersionSnapshot(key, listing, space);
      n := read;
      Interference();
      before, arrived := versions, {};
      if snapshot.Refused? {
        UnusableIsNeverClean(listing, n - 1, key);
        return Unconfirmed, before, n, batches;
      }
      shown := Members(snapshot.objects);
      var confirmed;
      confirmed, batches := DeleteInBatches(key, snapshot.objects, replies);
      outcome := if confirmed then Cleaned(snapshot.data) else Unconfirmed;
    }

    method DeleteInBatches(key: Key, objects: seq<VersionId>, replies: nat -> Reply)
      returns (confirmed: bool, ghost batches: seq<seq<VersionId>>)
      requires shown == Members(objects) && arrived == {}
      modifies this`versions, this`arrived
      ensures versions <= old(versions) + arrived && arrived <= versions
      ensures forall v | v in old(versions) :: v in versions || (v.0 == key && v.1 in shown)
      ensures forall b | b in batches :: 0 < |b| <= BATCH
      ensures confirmed ==> Flat(batches) == objects && forall v | v in objects :: (key, v) !in versions
      ensures confirmed <==> AllConfirmed(replies, |objects|)
    {
      batches := [];
      var start := 0;
      assert forall v | v in objects :: v in shown;
      while start < |objects|
        invariant 0 <= start <= |objects|
        invariant Flat(batches) == objects[..start] && forall b | b in batches :: 0 < |b| <= BATCH
        invariant forall v | v in old(versions) :: v in versions || (v.0 == key && v.1 in shown)
        invariant forall v | v in objects[..start] :: (key, v) !in versions
        invariant arrived <= versions && versions <= old(versions) + arrived
        invariant start % BATCH == 0 || start == |objects|
        invariant AllConfirmed(replies, start)
        invariant forall v | v in arrived :: v.1 !in shown
        decreases |objects| - start
      {
        Interference();
        var stop := if start + BATCH < |objects| then start + BATCH else |objects|;
        var batch := objects[start..stop];
        assert objects[..stop] == objects[..start] + batch;
        assert forall v | v in batch :: v in shown;
        ghost var standing := versions;
        assert arrived <= standing && standing <= old(versions) + arrived;
        NextConfirmed(replies, start, stop);
        confirmed := DeleteObjects(key, batch, replies(start / BATCH));
        assert forall v | v in standing :: v in versions || (v.0 == key && v.1 in shown);
        if !confirmed {
          if AllConfirmed(replies, |objects|) { MoreConfirmed(replies, stop, |objects|); }
          return false, batches;
        }
        FlatSnoc(batches, batch);
        batches := batches + [batch];
        start := stop;
      }
      assert objects[..start] == objects;
      return true, batches;
    }
  }

  function Flat(batches: seq<seq<VersionId>>): seq<VersionId>
    decreases |batches|
  {
    if batches == [] then [] else Flat(batches[..|batches| - 1]) + batches[|batches| - 1]
  }

  lemma FlatSnoc(batches: seq<seq<VersionId>>, last: seq<VersionId>)
    ensures Flat(batches + [last]) == Flat(batches) + last
  {
    assert (batches + [last])[..|batches|] == batches;
  }
}
