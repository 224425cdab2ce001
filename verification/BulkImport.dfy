/** Importing a product list: a preview that classifies every row, and an application that reserves
    quota once and then applies row by row, each under its own savepoint. */
module BulkImport {
  import opened Common

  const MAX_IMPORT_QUANTITY: int := 1_000_000

  datatype Bucket = Total | Available | Reserved | Issued | Damaged | Lost

  const BUCKETS: seq<Bucket> := [Total, Available, Reserved, Issued, Damaged, Lost]

  predicate Protected(b: Bucket) { b.Reserved? || b.Issued? || b.Damaged? || b.Lost? }

  /** A cell; a fraction comes with the text it prints as. */
  datatype Cell = Empty | Text(text: string) | Number(value: int) | Flag(on: bool) | Fraction(amount: real, shown: string)

  datatype Column = NameColumn | Quantity(bucket: Bucket) | TrackingColumn

  datatype Mode = ByQuantity | Individual

  /** `refused` stands for a bad box code, image key or availability mode in the row. */
  datatype Row = Row(cells: map<Column, Cell>, refused: bool)

  datatype Fault = Missing(column: Column) | BadNumber(bucket: Bucket) | OverTotal | BadTracking | Elsewhere
                 | PhantomStock(bucket: Bucket)

  datatype Data = Data(name: Cell, buckets: map<Bucket, int>, tracking: Cell)

  datatype Action = Create | Update | Error

  datatype Item = Item(row: nat, action: Action, data: Data)

  datatype Product = Product(name: string, buckets: map<Bucket, int>, tracking: Mode)

  // ---- Cells -----------------------------------------------------------------------------------

  predicate Digits(s: string) {
    s != "" && forall i | 0 <= i < |s| :: '0' <= s[i] <= '9'
  }

  function Decimal(s: string): int
    requires forall i | 0 <= i < |s| :: '0' <= s[i] <= '9'
  {
    if s == "" then 0 else 10 * Decimal(s[..|s| - 1]) + (s[|s| - 1] as int - '0' as int)
  }

  function ParseInt(cell: Cell): Option<int> {
    match cell
    case Empty => None
    case Number(value) => Some(value)
    case Flag(on) => Some(if on then 1 else 0)
    case Fraction(amount, _) => Some(if amount >= 0.0 then amount.Floor else -((-amount).Floor))
    case Text(text) =>
      var s := Strip(text);
      if Digits(s) then Some(Decimal(s))
      else if s != "" && s[0] == '-' && Digits(s[1..]) then Some(-Decimal(s[1..]))
      else if s != "" && s[0] == '+' && Digits(s[1..]) then Some(Decimal(s[1..]))
      else None
  }

  predicate Blank(cell: Cell) { cell.Empty? || cell == Text("") }

  /** Truth of a cell as the importer tests a name. */
  predicate Truthy(cell: Cell) {
    match cell
    case Empty => false
    case Text(text) => text != ""
    case Number(value) => value != 0
    case Flag(on) => on
    case Fraction(amount, _) => amount != 0.0
  }

  function Read(row: Row, column: Column): Cell {
    if column in row.cells then row.cells[column] else Empty
  }

  function ModeOf(cell: Cell): Option<Mode> {
    if cell == Text("quantity") then Some(ByQuantity) else if cell == Text("individual") then Some(Individual) else None
  }

  // ---- One row -----------------------------------------------------------------------------------

  function BucketValue(row: Row, mapping: set<Column>, b: Bucket): Option<int> {
    if Quantity(b) in mapping then Some(var parsed := ParseInt(Read(row, Quantity(b))); if parsed.Some? then parsed.value else 0)
    else if Protected(b) then Some(0)
    else None
  }

  predicate BadBucket(row: Row, mapping: set<Column>, b: Bucket) {
    && Quantity(b) in mapping
    && var parsed := ParseInt(Read(row, Quantity(b)));
       parsed.None? || parsed.value < 0 || parsed.value > MAX_IMPORT_QUANTITY
  }

  function BucketsOf(row: Row, mapping: set<Column>): map<Bucket, int> {
    map b: Bucket | BucketValue(row, mapping, b).Some? :: BucketValue(row, mapping, b).value
  }

  function Amount(buckets: map<Bucket, int>, b: Bucket): int {
    if b in buckets then buckets[b] else 0
  }

  function Used(buckets: map<Bucket, int>): int {
    Amount(buckets, Available) + Amount(buckets, Reserved) + Amount(buckets, Issued) + Amount(buckets, Damaged) + Amount(buckets, Lost)
  }

  predicate Exceeds(buckets: map<Bucket, int>) {
    Total in buckets && Used(buckets) > buckets[Total]
  }

  function DataOf(row: Row, mapping: set<Column>): Data {
    Data(if NameColumn in mapping then Read(row, NameColumn) else Empty,
         BucketsOf(row, mapping),
         if TrackingColumn in mapping then Read(row, TrackingColumn) else Text("quantity"))
  }

  function Required(row: Row, mapping: set<Column>): set<Fault> {
    set c | c in {NameColumn, Quantity(Total), Quantity(Available)} && (c !in mapping || Blank(Read(row, c))) :: Missing(c)
  }

  function BadNumbers(row: Row, mapping: set<Column>): set<Fault> {
    set b: Bucket | BadBucket(row, mapping, b) :: BadNumber(b)
  }

  function FaultsOf(row: Row, mapping: set<Column>): set<Fault> {
    Required(row, mapping) + BadNumbers(row, mapping)
    + (if ModeOf(DataOf(row, mapping).tracking).None? then {BadTracking} else {})
    + (if Exceeds(BucketsOf(row, mapping)) then {OverTotal} else {})
    + (if row.refused then {Elsewhere} else {})
  }

  /** Stock only the workflows may record cannot arrive with a new product. */
  function CreateFaults(data: Data): set<Fault> {
    set b: Bucket | Amount(data.buckets, b) != 0 && (Protected(b) || ModeOf(data.tracking) == Some(Individual)) :: PhantomStock(b)
  }

  function ActionOf(data: Data, existing: set<string>): Action {
    if !Truthy(data.name) then Error
    else if data.name.Text? && data.name.text in existing then Update
    else Create
  }

  function AllFaults(row: Row, mapping: set<Column>, existing: set<string>): set<Fault> {
    var data := DataOf(row, mapping);
    FaultsOf(row, mapping) + if ActionOf(data, existing).Create? then CreateFaults(data) else {}
  }

  function ItemOf(row: Row, mapping: set<Column>, existing: set<string>, index: nat): Item {
    var data := DataOf(row, mapping);
    Item(index, if AllFaults(row, mapping, existing) != {} then Error else ActionOf(data, existing), data)
  }

  method ParseQuantities(row: Row, mapping: set<Column>) returns (buckets: map<Bucket, int>, faults: set<Fault>)
    ensures forall b: Bucket :: b in buckets <==> Quantity(b) in mapping
    ensures forall b | b in buckets :: Some(buckets[b]) == BucketValue(row, mapping, b)
    ensures faults == BadNumbers(row, mapping)
  {
    buckets, faults := map[], {};
    for i := 0 to |BUCKETS|
      invariant forall b: Bucket :: b in buckets <==> b in BUCKETS[..i] && Quantity(b) in mapping
      invariant forall b | b in buckets :: Some(buckets[b]) == BucketValue(row, mapping, b)
      invariant forall fault :: fault in faults <==> fault.BadNumber? && fault.bucket in BUCKETS[..i] && BadBucket(row, mapping, fault.bucket)
    {
      var b := BUCKETS[i];
      assert BUCKETS[..i + 1] == BUCKETS[..i] + [b];
      if Quantity(b) in mapping {
        var parsed := ParseInt(Read(row, Quantity(b)));
        if parsed.None? || parsed.value < 0 || parsed.value > MAX_IMPORT_QUANTITY {
          faults := faults + {BadNumber(b)};
        }
        buckets := buckets[b := if parsed.Some? then parsed.value else 0];
      }
    }
    EveryBucket();
    assert BUCKETS[..|BUCKETS|] == BUCKETS;
    assert faults == BadNumbers(row, mapping);
  }

  method DefaultQuantities(parsed: map<Bucket, int>) returns (buckets: map<Bucket, int>)
    ensures forall b: Bucket :: b in buckets <==> b in parsed || Protected(b)
    ensures forall b | b in buckets :: buckets[b] == if b in parsed then parsed[b] else 0
  {
    buckets := parsed;
    for i := 0 to |BUCKETS|
      invariant forall b: Bucket :: b in buckets <==> b in parsed || (Protected(b) && b in BUCKETS[..i])
      invariant forall b | b in buckets :: buckets[b] == if b in parsed then parsed[b] else 0
    {
      assert BUCKETS[..i + 1] == BUCKETS[..i] + [BUCKETS[i]];
      if Protected(BUCKETS[i]) && BUCKETS[i] !in buckets {
        buckets := buckets[BUCKETS[i] := 0];
      }
    }
    EveryBucket();
    assert BUCKETS[..|BUCKETS|] == BUCKETS;
  }

  /** Fill a row's data step by step. */
  method NormalizeRow(row: Row, mapping: set<Column>) returns (data: Data, faults: set<Fault>)
    ensures data == DataOf(row, mapping)
    ensures faults == FaultsOf(row, mapping)
  {
    var name := if NameColumn in mapping then Read(row, NameColumn) else Empty;
    var parsed, bad := ParseQuantities(row, mapping);
    var buckets := DefaultQuantities(parsed);
    assert buckets == BucketsOf(row, mapping);
    faults := Required(row, mapping) + bad;
    var tracking := if TrackingColumn in mapping then Read(row, TrackingColumn) else Text("quantity");
    if ModeOf(tracking).None? {
      faults := faults + {BadTracking};
    }
    if Exceeds(buckets) {
      faults := faults + {OverTotal};
    }
    if row.refused {
      faults := faults + {Elsewhere};
    }
    data := Data(name, buckets, tracking);
  }

  lemma EveryBucket()
    ensures forall b: Bucket :: b in BUCKETS
  {
    forall b: Bucket ensures b in BUCKETS {
      match b
      case Total => assert BUCKETS[0] == b;
      case Available => assert BUCKETS[1] == b;
      case Reserved => assert BUCKETS[2] == b;
      case Issued => assert BUCKETS[3] == b;
      case Damaged => assert BUCKETS[4] == b;
      case Lost => assert BUCKETS[5] == b;
    }
  }

  // ---- The preview -------------------------------------------------------------------------------

  datatype Summary = Summary(create: nat, update: nat, errors: nat, total: nat)

  /** Rows with an action among the first n. */
  function Count(items: seq<Item>, n: nat, action: Action): nat
    requires n <= |items|
  {
    if n == 0 then 0 else Count(items, n - 1, action) + if items[n - 1].action == action then 1 else 0
  }

  /** Numbers of the rows reported with errors, among the first n. */
  function Reported(rows: seq<Row>, n: nat, mapping: set<Column>, existing: set<string>): seq<nat>
    requires n <= |rows|
  {
    if n == 0 then []
    else Reported(rows, n - 1, mapping, existing) + if AllFaults(rows[n - 1], mapping, existing) != {} then [n + 1] else []
  }

  /** The first n rows, classified. */
  function Previewed(rows: seq<Row>, n: nat, mapping: set<Column>, existing: set<string>): (items: seq<Item>)
    requires n <= |rows|
    ensures |items| == n
  {
    if n == 0 then [] else Previewed(rows, n - 1, mapping, existing) + [ItemOf(rows[n - 1], mapping, existing, n + 1)]
  }

  lemma {:induction false} PreviewedAt(rows: seq<Row>, n: nat, mapping: set<Column>, existing: set<string>, i: nat)
    requires i < n <= |rows|
    ensures Previewed(rows, n, mapping, existing)[i] == ItemOf(rows[i], mapping, existing, i + 2)
  {
    if i < n - 1 { PreviewedAt(rows, n - 1, mapping, existing, i); }
  }

  method PreviewImport(rows: seq<Row>, mapping: set<Column>, existing: set<string>)
    returns (items: seq<Item>, errors: seq<nat>)
    ensures items == Previewed(rows, |rows|, mapping, existing)
    ensures errors == Reported(rows, |rows|, mapping, existing)
  {
    items, errors := [], [];
    for i := 0 to |rows|
      invariant items == Previewed(rows, i, mapping, existing)
      invariant errors == Reported(rows, i, mapping, existing)
    {
      var item, faulty := PreviewRow(rows[i], mapping, existing, i + 2);
      errors := errors + if faulty then [i + 2] else [];
      items := items + [item];
    }
  }

  method PreviewRow(row: Row, mapping: set<Column>, existing: set<string>, index: nat) returns (item: Item, faulty: bool)
    ensures item == ItemOf(row, mapping, existing, index)
    ensures faulty <==> AllFaults(row, mapping, existing) != {}
  {
    var data, faults := NormalizeRow(row, mapping);
    var action := ActionOf(data, existing);
    if action.Create? {
      faults := faults + CreateFaults(data);
    }
    faulty := faults != {};
    item := Item(index, if faulty then Error else action, data);
  }

  /** A name that is neither blank nor true: it makes the row an error without a reported fault. */
  predicate FalsyName(row: Row, mapping: set<Column>) {
    && NameColumn in mapping
    && var name := Read(row, NameColumn); name == Number(0) || name == Flag(false) || (name.Fraction? && name.amount == 0.0)
  }

  /** A row counted as an error that no error was reported for. */
  predicate Unreported(row: Row, mapping: set<Column>, existing: set<string>) {
    FalsyName(row, mapping) && AllFaults(row, mapping, existing) == {}
  }

  lemma ErrorIffReported(row: Row, mapping: set<Column>, existing: set<string>, index: nat)
    ensures ItemOf(row, mapping, existing, index).action.Error?
       <==> AllFaults(row, mapping, existing) != {} || Unreported(row, mapping, existing)
  {
    var data := DataOf(row, mapping);
    if !Truthy(data.name) && !FalsyName(row, mapping) { assert Missing(NameColumn) in Required(row, mapping); }
  }

  const PLAIN: set<Column> := {NameColumn, Quantity(Total), Quantity(Available)}

  /** One piece, of which one is available. */
  function PlainRow(name: Cell): Row {
    Row(map[NameColumn := name, Quantity(Total) := Number(1), Quantity(Available) := Number(1)], false)
  }

  lemma PlainRowIsFine(name: Cell, existing: set<string>)
    requires !Blank(name)
    ensures AllFaults(PlainRow(name), PLAIN, existing) == {} && DataOf(PlainRow(name), PLAIN).name == name
  {
    var row := PlainRow(name);
    assert Required(row, PLAIN) == {};
    assert BadNumbers(row, PLAIN) == {};
    assert BucketsOf(row, PLAIN)[Total] == 1 && BucketsOf(row, PLAIN)[Available] == 1;
    assert FaultsOf(row, PLAIN) == {};
    assert CreateFaults(DataOf(row, PLAIN)) == {};
  }

  /** Such a row exists: a numeric zero for a name, and everything else in order. */
  lemma FalseNameGoesUnreported()
    ensures Unreported(PlainRow(Number(0)), PLAIN, {})
  {
    PlainRowIsFine(Number(0), {});
  }

  function UnreportedRows(rows: seq<Row>, n: nat, mapping: set<Column>, existing: set<string>): nat
    requires n <= |rows|
  {
    if n == 0 then 0
    else UnreportedRows(rows, n - 1, mapping, existing) + if Unreported(rows[n - 1], mapping, existing) then 1 else 0
  }

  lemma {:induction false} NothingUnreported(rows: seq<Row>, n: nat, mapping: set<Column>, existing: set<string>)
    requires n <= |rows|
    ensures UnreportedRows(rows, n, mapping, existing) == 0 <==> forall i | 0 <= i < n :: !Unreported(rows[i], mapping, existing)
  {
    if n > 0 { NothingUnreported(rows, n - 1, mapping, existing); }
  }

  lemma {:induction false} CountsAddUp(items: seq<Item>, n: nat)
    requires n <= |items|
    ensures Count(items, n, Create) + Count(items, n, Update) + Count(items, n, Error) == n
  {
    if n > 0 { CountsAddUp(items, n - 1); }
  }

  lemma {:induction false} CountAppends(items: seq<Item>, last: Item, n: nat, action: Action)
    requires n <= |items|
    ensures Count(items + [last], n, action) == Count(items, n, action)
  {
    if n > 0 { CountAppends(items, last, n - 1, action); }
  }

  /** Errors in the list are the reported rows and the unreported ones. */
  lemma {:induction false} ReportedAddsUp(rows: seq<Row>, n: nat, mapping: set<Column>, existing: set<string>)
    requires n <= |rows|
    ensures Count(Previewed(rows, n, mapping, existing), n, Error)
         == |Reported(rows, n, mapping, existing)| + UnreportedRows(rows, n, mapping, existing)
  {
    if n > 0 {
      ReportedAddsUp(rows, n - 1, mapping, existing);
      CountAppends(Previewed(rows, n - 1, mapping, existing), ItemOf(rows[n - 1], mapping, existing, n + 1), n - 1, Error);
      ErrorIffReported(rows[n - 1], mapping, existing, n + 1);
    }
  }

  /** The preview's summary adds up exactly when no row's only defect is a false name. */
  lemma SummaryAddsUp(rows: seq<Row>, mapping: set<Column>, existing: set<string>)
    ensures var items := Previewed(rows, |rows|, mapping, existing);
            Count(items, |rows|, Create) + Count(items, |rows|, Update) + |Reported(rows, |rows|, mapping, existing)| == |rows|
            <==> forall i | 0 <= i < |rows| :: !Unreported(rows[i], mapping, existing)
  {
    CountsAddUp(Previewed(rows, |rows|, mapping, existing), |rows|);
    ReportedAddsUp(rows, |rows|, mapping, existing);
    NothingUnreported(rows, |rows|, mapping, existing);
  }

  // ---- Applying ------------------------------------------------------------------------------------

  function ShowInt(n: int): string
    decreases if n < 0 then 1 - n else n
  {
    if n < 0 then "-" + ShowInt(-n)
    else if n < 10 then [('0' as int + n) as char]
    else ShowInt(n / 10) + [('0' as int + n % 10) as char]
  }

  /** The text a name cell is looked up and stored as. */
  function NameText(cell: Cell): string {
    match cell
    case Empty => ""
    case Text(text) => text
    case Number(value) => ShowInt(value)
    case Flag(on) => if on then "True" else "False"
    case Fraction(_, shown) => shown
  }

  /** What a name cell counts as when quota is reserved: numbers and flags of equal value are one. */
  datatype Key = Word(text: string) | Worth(amount: real)

  function KeyOf(cell: Cell): Key {
    match cell
    case Empty => Word("")
    case Text(text) => Word(text)
    case Number(value) => Worth(value as real)
    case Flag(on) => Worth(if on then 1.0 else 0.0)
    case Fraction(amount, _) => Worth(amount)
  }

  type Products = map<nat, Product>

  function Names(products: Products): set<string> {
    set id | id in products :: products[id].name
  }

  function Matching(products: Products, name: string): set<nat> {
    set id | id in products && products[id].name == name
  }

  function NewProduct(data: Data): Product {
    var mode := ModeOf(data.tracking);
    Product(NameText(data.name), map b: Bucket | b in BUCKETS :: Amount(data.buckets, b),
            if mode.Some? then mode.value else ByQuantity)
  }

  predicate NoStock(p: Product) {
    forall b: Bucket :: Amount(p.buckets, b) == 0
  }

  /** A runtime failure of one row, before or after the product is looked up. */
  datatype Trouble = Clear | Early | Late

  datatype RowResult = Created | Updated | Failed | Ambiguous

  /** What one row does; `held` are the products with units or open requests. */
  function RowResultOf(products: Products, item: Item, modeMapped: bool, held: set<nat>, trouble: Trouble): RowResult {
    var found := Matching(products, NameText(item.data.name));
    if trouble.Early? then Failed
    else if |found| > 1 then Ambiguous
    else if trouble.Late? then Failed
    else if found == {} then Created
    else
      var p := products[MinOf(found)];
      if modeMapped && ModeOf(item.data.tracking) != Some(p.tracking)
         && (ModeOf(item.data.tracking).None? || !NoStock(p) || MinOf(found) in held)
      then Failed
      else Updated
  }

  function RowApplied(products: Products, nextId: nat, item: Item, modeMapped: bool, held: set<nat>, trouble: Trouble): Products {
    match RowResultOf(products, item, modeMapped, held, trouble)
    case Created => products[nextId := NewProduct(item.data)]
    case Updated =>
      var id := MinOf(Matching(products, NameText(item.data.name)));
      if modeMapped && ModeOf(item.data.tracking).Some?
      then products[id := products[id].(tracking := ModeOf(item.data.tracking).value)]
      else products
    case _ => products
  }

  /** Stock of a product an import may bring into being. */
  predicate CleanStock(p: Product) {
    && (forall b: Bucket | Protected(b) :: Amount(p.buckets, b) == 0)
    && 0 <= Amount(p.buckets, Available) <= Amount(p.buckets, Total)
  }

  lemma CreateIsClean(row: Row, mapping: set<Column>, existing: set<string>, index: nat)
    requires ItemOf(row, mapping, existing, index).action.Create?
    ensures CleanStock(NewProduct(DataOf(row, mapping)))
    ensures ModeOf(DataOf(row, mapping).tracking) == Some(Individual) ==> NoStock(NewProduct(DataOf(row, mapping)))
  {
    var data := DataOf(row, mapping);
    EveryBucket();
    assert AllFaults(row, mapping, existing) == {};
    forall b: Bucket | Protected(b) || ModeOf(data.tracking) == Some(Individual) ensures Amount(data.buckets, b) == 0 {
      assert PhantomStock(b) !in AllFaults(row, mapping, existing);
    }
    assert Missing(Quantity(Total)) !in AllFaults(row, mapping, existing);
    assert Missing(Quantity(Available)) !in AllFaults(row, mapping, existing);
    assert BadNumber(Available) !in AllFaults(row, mapping, existing);
    assert OverTotal !in AllFaults(row, mapping, existing);
  }

  // ---- The importer ----------------------------------------------------------------------------------

  /** `after` is `before` with some rows turned into errors. */
  predicate Demotes(before: seq<Item>, after: seq<Item>) {
    && |after| == |before|
    && forall i | 0 <= i < |before| :: after[i] == before[i] || after[i] == before[i].(action := Error)
  }

  /** The keys that quota is reserved for. */
  function NewKeys(items: seq<Item>, names: set<string>): set<Key> {
    set i | 0 <= i < |items| && !items[i].action.Error? && !(items[i].data.name.Text? && items[i].data.name.text in names)
      :: KeyOf(items[i].data.name)
  }

  /** The names that are not in the catalogue yet, as texts. */
  function NewTexts(items: seq<Item>, names: set<string>): set<string> {
    set i | 0 <= i < |items| && !items[i].action.Error? && NameText(items[i].data.name) !in names
      :: NameText(items[i].data.name)
  }

  predicate TextNames(items: seq<Item>) {
    forall i | 0 <= i < |items| && !items[i].action.Error? :: items[i].data.name.Text?
  }

  /** Names of one key have one text. */
  predicate Telling(items: seq<Item>) {
    forall i, j | 0 <= i < |items| && 0 <= j < |items| && !items[i].action.Error? && !items[j].action.Error?
      && KeyOf(items[i].data.name) == KeyOf(items[j].data.name) :: NameText(items[i].data.name) == NameText(items[j].data.name)
  }

  /** What the preview promises of the rows it lets through. */
  ghost predicate Admitted(items: seq<Item>, names: set<string>) {
    forall i | 0 <= i < |items| ::
      && (items[i].action.Create? ==> CleanStock(NewProduct(items[i].data)))
      && (items[i].action.Update? ==> NameText(items[i].data.name) in names)
  }

  /** Products that were there keep their names and all quantities; only an empty, unheld product
      may change its tracking mode, and only if the mode is a mapped column. */
  predicate Preserved(before: Products, after: Products, modeMapped: bool, held: set<nat>) {
    forall id | id in before ::
      && id in after && after[id].name == before[id].name && after[id].buckets == before[id].buckets
      && (after[id].tracking != before[id].tracking ==> modeMapped && NoStock(before[id]) && id !in held)
  }

  datatype Report = Rejected
                  | Aborted
                  | OverQuota
                  | Applied(items: seq<Item>, errors: seq<nat>, created: nat, updated: nat, reserved: nat, summary: Summary)

  class Importer {
    var products: Products
    var nextId: nat

    ghost predicate Valid() reads this {
      Below(products, nextId)
    }

    constructor ()
      ensures Valid() && products == map[]
    {
      products, nextId := map[], 0;
    }

    method ApplyImportRow(item: Item, modeMapped: bool, held: set<nat>, trouble: Trouble) returns (outcome: RowResult)
      requires Valid()
      modifies this
      ensures Valid()
      ensures outcome == RowResultOf(old(products), item, modeMapped, held, trouble)
      ensures products == RowApplied(old(products), old(nextId), item, modeMapped, held, trouble)
      ensures nextId == old(nextId) + if outcome.Created? then 1 else 0
    {
      if trouble.Early? {
        return Failed;
      }
      var found := Matching(products, NameText(item.data.name));
      if |found| > 1 {
        return Ambiguous;
      }
      if trouble.Late? {
        return Failed;
      }
      if found == {} {
        products := products[nextId := NewProduct(item.data)];
        nextId := nextId + 1;
        return Created;
      }
      var id := MinOf(found);
      var mode := ModeOf(item.data.tracking);
      if modeMapped {
        if mode.None? || (mode.value != products[id].tracking && (!NoStock(products[id]) || id in held)) {
          return Failed;
        }
        products := products[id := products[id].(tracking := mode.value)];
      }
      return Updated;
    }

    method ApplyOne(tally: Tally, item: Item, modeMapped: bool, held: set<nat>, trouble: Trouble) returns (aborted: bool, tally': Tally)
      requires Valid() && tally.done < |tally.items|
      modifies this
      ensures Valid()
      ensures Import(products, nextId, tally', aborted)
           == RowStep(Import(old(products), old(nextId), tally, false), item, modeMapped, held, trouble)
    {
      if item.action.Error? {
        return false, tally.(done := tally.done + 1);
      }
      var outcome := ApplyImportRow(item, modeMapped, held, trouble);
      if outcome.Ambiguous? {
        return true, tally;
      }
      return false, Recorded(tally, outcome, item);
    }

    /** Apply the rows in turn; a failed row is recorded and the others go on. */
    method ApplyRows(items: seq<Item>, modeMapped: bool, held: set<nat>, trouble: nat -> Trouble)
      returns (aborted: bool, tally: Tally)
      requires Valid()
      modifies this
      ensures Valid()
      ensures var end := AfterRows(old(products), old(nextId), items, |items|, modeMapped, held, trouble);
              aborted == end.aborted && (!aborted ==> end == Import(products, nextId, tally, false))
    {
      tally, aborted := Tally(items, 0, [], 0, 0), false;
      var i := 0;
      while i < |items| && !aborted
        invariant i <= |items| && Valid()
        invariant Import(products, nextId, tally, aborted) == AfterRows(old(products), old(nextId), items, i, modeMapped, held, trouble)
      {
        aborted, tally := ApplyOne(tally, items[i], modeMapped, held, trouble(i));
        i := i + 1;
      }
      if aborted {
        AbortStays(old(products), old(nextId), items, i, |items|, modeMapped, held, trouble);
      }
    }

    /** Reserve, apply, or leave everything as it was. */
    method Commit(items: seq<Item>, modeMapped: bool, limit: Option<int>, held: set<nat>, trouble: nat -> Trouble)
      returns (stopped: Option<Report>, tally: Tally, reserved: nat)
      requires Valid() && Admitted(items, Names(products))
      modifies this
      ensures Valid()
      ensures reserved == |NewKeys(items, Names(old(products)))|
      ensures var end := AfterRows(old(products), old(nextId), items, |items|, modeMapped, held, trouble);
              && stopped == (if limit.Some? && |old(products)| + reserved > limit.value then Some(OverQuota)
                             else if end.aborted then Some(Aborted) else None)
              && (stopped.Some? ==> products == old(products) && nextId == old(nextId))
              && (stopped.None? ==> Import(products, nextId, tally, false) == end)
      ensures stopped.None? ==> Sound(old(products), products, items, tally, modeMapped, held)
    {
      reserved := |NewKeys(items, Names(products))|;
      tally := Tally(items, 0, [], 0, 0);
      if limit.Some? && |products| + reserved > limit.value {
        return Some(OverQuota), tally, reserved;
      }
      var saved, firstId := products, nextId;
      var aborted;
      aborted, tally := ApplyRows(items, modeMapped, held, trouble);
      if aborted {
        products, nextId := saved, firstId;
        return Some(Aborted), tally, reserved;
      }
      RowsAreSound(saved, firstId, items, modeMapped, held, trouble);
      stopped := None;
    }

    /** Preview, reserve, apply, report. Whatever stops the import leaves the catalogue as it was. */
    method ApplyImport(rows: seq<Row>, mapping: set<Column>, allowPartial: bool, limit: Option<int>,
                       unprepared: nat -> bool, held: set<nat>, trouble: nat -> Trouble) returns (report: Report)
      requires Valid()
      modifies this
      ensures Valid()
      ensures var existing := Names(old(products));
              var ready := Ready(Previewed(rows, |rows|, mapping, existing), unprepared);
              var end := AfterRows(old(products), old(nextId), ready, |rows|, TrackingColumn in mapping, held, trouble);
              if !allowPartial && Reported(rows, |rows|, mapping, existing) != [] then report == Rejected && products == old(products)
              else if limit.Some? && |old(products)| + |NewKeys(ready, existing)| > limit.value then
                report == OverQuota && products == old(products)
              else if end.aborted then report == Aborted && products == old(products)
              else
                && report.Applied? && products == end.products && report.items == end.tally.items
                && report.created == end.tally.created && report.updated == end.tally.updated
                && report.errors == Reported(rows, |rows|, mapping, existing)
                                      + Unready(Previewed(rows, |rows|, mapping, existing), |rows|, unprepared) + end.tally.errors
      ensures report.Applied? ==> Faithful(old(products), products, rows, mapping, limit, held, report)
    {
      var existing := Names(products);
      var previewed, errors := PreviewImport(rows, mapping, existing);
      if errors != [] && !allowPartial {
        return Rejected;
      }
      var items, lost := PrepareImages(previewed, unprepared);
      AdmittedRows(rows, |rows|, mapping, existing, items);
      ghost var was := products;
      var stopped, tally, reserved := Commit(items, TrackingColumn in mapping, limit, held, trouble);
      if stopped.Some? {
        return stopped.value;
      }
      var all := errors + lost + tally.errors;
      var n := |rows|;
      report := Applied(tally.items, all, tally.created, tally.updated, reserved,
                        Summary(Count(tally.items, n, Create), Count(tally.items, n, Update), |all|, n));
      ReportIsFaithful(was, products, rows, mapping, limit, held, items, |lost|, tally, report);
    }
  }

  /** What an applied import reports about the rows and does to the catalogue. */
  ghost predicate Faithful(before: Products, now: Products, rows: seq<Row>, mapping: set<Column>, limit: Option<int>,
                           held: set<nat>, r: Report)
    requires r.Applied?
  {
    var previewed := Previewed(rows, |rows|, mapping, Names(before));
    var n := |rows|;
    && |r.items| == n && Demotes(previewed, r.items)
    // Every row that is not an error was created or updated, and the summary says as many.
    && r.created + r.updated + Count(r.items, n, Error) == n
    && r.summary == Summary(Count(r.items, n, Create), Count(r.items, n, Update), |r.errors|, n)
    && r.summary.create + r.summary.update == r.created + r.updated
    // The summary adds up exactly when the preview's did.
    && |r.errors| + UnreportedRows(rows, n, mapping, Names(before)) == Count(r.items, n, Error)
    // One product for each new text that was let through, within the quota reserved if the names are telling.
    && |now| == |before| + r.created
    && (r.items == previewed ==> r.created == |NewTexts(previewed, Names(before))|)
    && (Telling(previewed) ==> r.created <= r.reserved && (limit.Some? ==> |now| <= limit.value))
    && (r.items == previewed && TextNames(previewed) ==> r.created == r.reserved)
    && Preserved(before, now, TrackingColumn in mapping, held)
    && (forall id | id in now && id !in before :: CleanStock(now[id]))
  }

  lemma ReportIsFaithful(before: Products, now: Products, rows: seq<Row>, mapping: set<Column>, limit: Option<int>,
                         held: set<nat>, items: seq<Item>, lost: nat, t: Tally, r: Report)
    requires Demotes(Previewed(rows, |rows|, mapping, Names(before)), items)
    requires lost + Count(Previewed(rows, |rows|, mapping, Names(before)), |rows|, Error) == Count(items, |rows|, Error)
    requires Sound(before, now, items, t, TrackingColumn in mapping, held)
    requires r.Applied? && r.items == t.items && r.created == t.created && r.updated == t.updated
    requires |r.errors| == |Reported(rows, |rows|, mapping, Names(before))| + lost + |t.errors|
    requires r.reserved == |NewKeys(items, Names(before))| && (limit.Some? ==> |before| + r.reserved <= limit.value)
    requires r.summary == Summary(Count(t.items, |rows|, Create), Count(t.items, |rows|, Update), |r.errors|, |rows|)
    ensures Faithful(before, now, rows, mapping, limit, held, r)
  {
    var previewed := Previewed(rows, |rows|, mapping, Names(before));
    ReportedAddsUp(rows, |rows|, mapping, Names(before));
    CountsAddUp(t.items, |rows|);
    DemotesTwice(previewed, items, t.items);
    if Telling(previewed) {
      TellingIsInherited(previewed, items);
      TextsWithinKeys(items, Names(before));
    }
    if t.items == previewed && TextNames(previewed) { TextsAreKeys(items, Names(before)); }
  }

  lemma TellingIsInherited(items: seq<Item>, after: seq<Item>)
    requires Demotes(items, after) && Telling(items)
    ensures Telling(after)
  {
    forall i, j | 0 <= i < |after| && 0 <= j < |after| && !after[i].action.Error? && !after[j].action.Error?
                  && KeyOf(after[i].data.name) == KeyOf(after[j].data.name)
      ensures NameText(after[i].data.name) == NameText(after[j].data.name)
    {
      assert after[i] == items[i] && after[j] == items[j];
    }
  }

  /** A choice of key for every text is one-to-one if equal keys mean equal texts. */
  lemma {:induction false} Injects(texts: set<string>, key: map<string, Key>, keys: set<Key>)
    requires texts <= key.Keys && forall t | t in texts :: key[t] in keys
    requires forall t, u | t in texts && u in texts && key[t] == key[u] :: t == u
    ensures |texts| <= |keys|
    decreases |texts|
  {
    if texts != {} {
      var t :| t in texts;
      Injects(texts - {t}, key, keys - {key[t]});
    }
  }

  function KeyFor(items: seq<Item>, names: set<string>, text: string): Key
    requires text in NewTexts(items, names)
  {
    var i := FirstWith(items, text);
    KeyOf(items[i].data.name)
  }

  function FirstWith(items: seq<Item>, text: string): (i: nat)
    requires exists i :: 0 <= i < |items| && !items[i].action.Error? && NameText(items[i].data.name) == text
    ensures i < |items| && !items[i].action.Error? && NameText(items[i].data.name) == text
  {
    if !items[0].action.Error? && NameText(items[0].data.name) == text then 0 else FirstWith(items[1..], text) + 1
  }

  lemma TextsWithinKeys(items: seq<Item>, names: set<string>)
    requires Telling(items)
    ensures |NewTexts(items, names)| <= |NewKeys(items, names)|
  {
    var texts := NewTexts(items, names);
    var key := map t | t in texts :: KeyFor(items, names, t);
    forall t | t in texts ensures key[t] in NewKeys(items, names) {
      var i := FirstWith(items, t);
      assert items[i].data.name.Text? ==> items[i].data.name.text == t;
    }
    Injects(texts, key, NewKeys(items, names));
  }

  lemma TextsAreKeys(items: seq<Item>, names: set<string>)
    requires TextNames(items)
    ensures |NewTexts(items, names)| == |NewKeys(items, names)|
  {
    assert NewKeys(items, names) == set t | t in NewTexts(items, names) :: Word(t);
    WordsOf(NewTexts(items, names));
  }

  lemma {:induction false} WordsOf(texts: set<string>)
    ensures |set t | t in texts :: Word(t)| == |texts|
    decreases |texts|
  {
    if texts != {} {
      var u :| u in texts;
      WordsOf(texts - {u});
      assert (set t | t in texts :: Word(t)) == (set t | t in texts - {u} :: Word(t)) + {Word(u)};
    }
  }

  lemma DemotesTwice(a: seq<Item>, b: seq<Item>, c: seq<Item>)
    requires Demotes(a, b) && Demotes(b, c)
    ensures Demotes(a, c)
    ensures c == a ==> b == a
  {
    forall i | 0 <= i < |a| ensures c[i] == a[i] || c[i] == a[i].(action := Error)
      ensures c[i] == a[i] ==> b[i] == a[i]
    {
      assert b[i] == a[i] || b[i] == a[i].(action := Error);
    }
  }

  datatype Import = Import(products: Products, nextId: nat, tally: Tally, aborted: bool)

  function RowStep(s: Import, item: Item, modeMapped: bool, held: set<nat>, trouble: Trouble): Import
    requires s.tally.done < |s.tally.items|
  {
    var outcome := RowResultOf(s.products, item, modeMapped, held, trouble);
    if item.action.Error? then s.(tally := s.tally.(done := s.tally.done + 1))
    else if outcome.Ambiguous? then s.(aborted := true)
    else Import(RowApplied(s.products, s.nextId, item, modeMapped, held, trouble),
                s.nextId + if outcome.Created? then 1 else 0, Recorded(s.tally, outcome, item), false)
  }

  /** The import after its first n rows; an ambiguous name stops it. */
  function AfterRows(products: Products, nextId: nat, items: seq<Item>, n: nat, modeMapped: bool, held: set<nat>,
                     trouble: nat -> Trouble): (s: Import)
    requires n <= |items|
    ensures |s.tally.items| == |items| && (!s.aborted ==> s.tally.done == n)
  {
    if n == 0 then Import(products, nextId, Tally(items, 0, [], 0, 0), false)
    else
      var s := AfterRows(products, nextId, items, n - 1, modeMapped, held, trouble);
      if s.aborted then s else RowStep(s, items[n - 1], modeMapped, held, trouble(n - 1))
  }

  lemma {:induction false} AbortStays(products: Products, nextId: nat, items: seq<Item>, n: nat, m: nat, modeMapped: bool,
                                      held: set<nat>, trouble: nat -> Trouble)
    requires n <= m <= |items| && AfterRows(products, nextId, items, n, modeMapped, held, trouble).aborted
    ensures AfterRows(products, nextId, items, m, modeMapped, held, trouble).aborted
    decreases m
  {
    if n < m { AbortStays(products, nextId, items, n, m - 1, modeMapped, held, trouble); }
  }

  /** What the rows so far guarantee, whatever fails. */
  lemma {:induction false} RowsProgress(products: Products, nextId: nat, items: seq<Item>, n: nat, modeMapped: bool,
                                        held: set<nat>, trouble: nat -> Trouble) returns (made: set<string>)
    requires n <= |items| && Admitted(items, Names(products)) && Below(products, nextId)
    requires !AfterRows(products, nextId, items, n, modeMapped, held, trouble).aborted
    ensures var s := AfterRows(products, nextId, items, n, modeMapped, held, trouble);
            && Progress(products, s.products, items, s.tally, made, modeMapped, held)
            && Below(s.products, s.nextId)
  {
    if n == 0 {
      NothingMade(products, items, modeMapped, held);
      made := {};
    } else {
      made := RowsProgress(products, nextId, items, n - 1, modeMapped, held, trouble);
      var s := AfterRows(products, nextId, items, n - 1, modeMapped, held, trouble);
      NextProgress(products, s, items, made, modeMapped, held, trouble(n - 1));
      made := MadeBy(made, s.products, items[n - 1], modeMapped, held, trouble(n - 1));
    }
  }

  function MadeBy(made: set<string>, products: Products, item: Item, modeMapped: bool, held: set<nat>, trouble: Trouble): set<string> {
    if item.action.Error? then made else Making(made, RowResultOf(products, item, modeMapped, held, trouble), item)
  }

  lemma NextProgress(before: Products, s: Import, items: seq<Item>, made: set<string>, modeMapped: bool, held: set<nat>, trouble: Trouble)
    requires Admitted(items, Names(before)) && Below(s.products, s.nextId)
    requires Progress(before, s.products, items, s.tally, made, modeMapped, held)
    requires !s.aborted && s.tally.done < |items|
    requires !RowStep(s, items[s.tally.done], modeMapped, held, trouble).aborted
    ensures var next := RowStep(s, items[s.tally.done], modeMapped, held, trouble);
            && Progress(before, next.products, items, next.tally,
                        MadeBy(made, s.products, items[s.tally.done], modeMapped, held, trouble), modeMapped, held)
            && Below(next.products, next.nextId)
  {
    var item := items[s.tally.done];
    if item.action.Error? {
      ErrorPassedOver(before, s.products, items, s.tally, made, modeMapped, held);
    } else {
      IdsStay(s.products, s.nextId, item, modeMapped, held, trouble);
      RowProgress(before, s.products, s.nextId, items, s.tally, made, modeMapped, held, trouble);
    }
  }

  lemma IdsStay(products: Products, nextId: nat, item: Item, modeMapped: bool, held: set<nat>, trouble: Trouble)
    requires Below(products, nextId)
    ensures Below(RowApplied(products, nextId, item, modeMapped, held, trouble),
                  nextId + if RowResultOf(products, item, modeMapped, held, trouble).Created? then 1 else 0)
  {
    RowMeaning(products, nextId, item, modeMapped, held, trouble);
  }

  predicate Below(products: Products, nextId: nat) {
    forall id | id in products :: id < nextId
  }

  /** Rows whose image could not be prepared are errors. */
  function Ready(items: seq<Item>, unprepared: nat -> bool): seq<Item> {
    seq(|items|, i requires 0 <= i < |items| => if unprepared(i) then items[i].(action := Error) else items[i])
  }

  /** Their numbers, among the first n. */
  function Unready(items: seq<Item>, n: nat, unprepared: nat -> bool): seq<nat>
    requires n <= |items|
  {
    if n == 0 then []
    else Unready(items, n - 1, unprepared) + if !items[n - 1].action.Error? && unprepared(n - 1) then [items[n - 1].row] else []
  }

  /** Rows whose image could not be prepared become errors before any quota is reserved. */
  method PrepareImages(items: seq<Item>, unprepared: nat -> bool) returns (after: seq<Item>, errors: seq<nat>)
    ensures after == Ready(items, unprepared) && errors == Unready(items, |items|, unprepared)
    ensures Demotes(items, after)
    ensures |errors| + Count(items, |items|, Error) == Count(after, |items|, Error)
  {
    after, errors := items, [];
    for i := 0 to |items|
      invariant Demotes(items, after) && |errors| + Count(items, i, Error) == Count(after, i, Error)
      invariant forall j | i <= j < |items| :: after[j] == items[j]
      invariant forall j | 0 <= j < i :: after[j] == Ready(items, unprepared)[j]
      invariant errors == Unready(items, i, unprepared)
    {
      if !items[i].action.Error? && unprepared(i) {
        CountStays(after, i, items[i].(action := Error), i, Error);
        after, errors := after[i := items[i].(action := Error)], errors + [items[i].row];
      }
    }
  }

  lemma {:induction false} AdmittedRows(rows: seq<Row>, n: nat, mapping: set<Column>, existing: set<string>, items: seq<Item>)
    requires n == |rows| && Demotes(Previewed(rows, n, mapping, existing), items)
    ensures Admitted(items, existing)
  {
    forall i | 0 <= i < |items|
      ensures items[i].action.Create? ==> CleanStock(NewProduct(items[i].data))
      ensures items[i].action.Update? ==> NameText(items[i].data.name) in existing
    {
      PreviewedAt(rows, n, mapping, existing, i);
      if items[i].action.Create? { CreateIsClean(rows[i], mapping, existing, i + 2); }
    }
  }

  /** The list of rows as edited so far, how many are done, and the counters. */
  datatype Tally = Tally(items: seq<Item>, done: nat, errors: seq<nat>, created: nat, updated: nat)

  function Recorded(t: Tally, outcome: RowResult, item: Item): Tally
    requires t.done < |t.items|
  {
    match outcome
    case Created => t.(done := t.done + 1, created := t.created + 1)
    case Updated => t.(done := t.done + 1, updated := t.updated + 1)
    case _ => t.(done := t.done + 1, items := t.items[t.done := item.(action := Error)], errors := t.errors + [item.row])
  }

  ghost predicate Progress(before: Products, now: Products, items: seq<Item>, t: Tally, made: set<string>, modeMapped: bool, held: set<nat>) {
    && Stocked(before, now, NewTexts(items, Names(before)), made, modeMapped, held) && Done(items, t.items, t.done, Names(now))
    && t.created == |made| && Tallied(items, t)
  }

  /** What a finished application guarantees. */
  ghost predicate Sound(before: Products, now: Products, items: seq<Item>, t: Tally, modeMapped: bool, held: set<nat>) {
    && Demotes(items, t.items)
    && t.created + t.updated + Count(t.items, |items|, Error) == |items|
    && |t.errors| + Count(items, |items|, Error) == Count(t.items, |items|, Error)
    && |now| == |before| + t.created
    && t.created <= |NewTexts(items, Names(before))|
    && (t.items == items ==> t.created == |NewTexts(items, Names(before))|)
    && Preserved(before, now, modeMapped, held)
    && (forall id | id in now && id !in before :: CleanStock(now[id]))
  }

  /** Whatever fails at runtime, an import that is not aborted is sound. */
  lemma RowsAreSound(products: Products, nextId: nat, items: seq<Item>, modeMapped: bool, held: set<nat>, trouble: nat -> Trouble)
    requires Admitted(items, Names(products)) && Below(products, nextId)
    requires !AfterRows(products, nextId, items, |items|, modeMapped, held, trouble).aborted
    ensures var s := AfterRows(products, nextId, items, |items|, modeMapped, held, trouble);
            Sound(products, s.products, items, s.tally, modeMapped, held)
  {
    var made := RowsProgress(products, nextId, items, |items|, modeMapped, held, trouble);
    var s := AfterRows(products, nextId, items, |items|, modeMapped, held, trouble);
    MadeIsReserved(products, s.products, items, s.tally.items, made, modeMapped, held);
  }

  // ---- When the reservation suffices ---------------------------------------------------------------

  function IfKnown(item: Item, names: set<string>): Trouble {
    if NameText(item.data.name) in names then Early else Clear
  }

  /** The rows of known names fail, all others go through. */
  function OnlyNew(items: seq<Item>, names: set<string>): nat -> Trouble {
    (i: nat) => if i < |items| then IfKnown(items[i], names) else Clear
  }

  /** The new names of the first n rows exist. */
  predicate Made(items: seq<Item>, n: nat, known: set<string>, names: set<string>)
    requires n <= |items|
  {
    forall j | 0 <= j < n && !items[j].action.Error? && NameText(items[j].data.name) !in known :: NameText(items[j].data.name) in names
  }

  /** The known names are still there, and every other name is one product's. */
  ghost predicate Grown(known: set<string>, products: Products) {
    known <= Names(products) && forall text | text !in known :: |Matching(products, text)| <= 1
  }

  /** The import after n rows, with every new name made. */
  ghost predicate Complete(s: Import, items: seq<Item>, n: nat, known: set<string>) {
    && n <= |items| && !s.aborted && |s.tally.items| == |items| && s.tally.done == n
    && Below(s.products, s.nextId) && Grown(known, s.products) && Made(items, n, known, Names(s.products))
  }

  lemma {:induction false} OnlyNewMakesAll(products: Products, nextId: nat, items: seq<Item>, n: nat, modeMapped: bool, held: set<nat>,
                                           trouble: nat -> Trouble)
    requires n <= |items| && Below(products, nextId)
    requires forall i | 0 <= i < |items| :: trouble(i) == IfKnown(items[i], Names(products))
    ensures Complete(AfterRows(products, nextId, items, n, modeMapped, held, trouble), items, n, Names(products))
  {
    if n == 0 {
      NothingYet(products);
    } else {
      OnlyNewMakesAll(products, nextId, items, n - 1, modeMapped, held, trouble);
      NextMade(AfterRows(products, nextId, items, n - 1, modeMapped, held, trouble), items, n - 1, Names(products), modeMapped, held);
    }
  }

  lemma NothingYet(products: Products)
    ensures Grown(Names(products), products)
  {
    forall text | text !in Names(products) ensures Matching(products, text) == {} {}
  }

  lemma NextMade(s: Import, items: seq<Item>, n: nat, known: set<string>, modeMapped: bool, held: set<nat>)
    requires n < |items| && Complete(s, items, n, known)
    ensures Complete(RowStep(s, items[n], modeMapped, held, IfKnown(items[n], known)), items, n + 1, known)
  {
    if !items[n].action.Error? {
      OneRowMakes(known, s.products, s.nextId, items[n], modeMapped, held);
      IdsStay(s.products, s.nextId, items[n], modeMapped, held, IfKnown(items[n], known));
    }
  }

  lemma OneRowMakes(known: set<string>, products: Products, nextId: nat, item: Item, modeMapped: bool, held: set<nat>)
    requires Below(products, nextId) && Grown(known, products)
    ensures var name := NameText(item.data.name);
            var trouble := IfKnown(item, known);
            var after := RowApplied(products, nextId, item, modeMapped, held, trouble);
            && !RowResultOf(products, item, modeMapped, held, trouble).Ambiguous?
            && Names(products) <= Names(after) && Grown(known, after)
            && (name !in known ==> name in Names(after))
  {
    var name := NameText(item.data.name);
    var trouble := IfKnown(item, known);
    var after := RowApplied(products, nextId, item, modeMapped, held, trouble);
    RowMeaning(products, nextId, item, modeMapped, held, trouble);
    var outcome := RowResultOf(products, item, modeMapped, held, trouble);
    if outcome.Failed? && name !in known { assert Matching(products, name) != {}; assert MinOf(Matching(products, name)) in Matching(products, name); }
    forall text | text !in known ensures |Matching(after, text)| <= 1 {
      if outcome.Created? && text == name {
        assert Matching(after, text) == {nextId};
      } else {
        assert Matching(after, text) == Matching(products, text);
      }
    }
  }

  /** Whatever rows fail, what is created stays within the reservation, exactly when the new names are
      not more, as texts, than they are as keys. */
  lemma ReservationSuffices(products: Products, nextId: nat, items: seq<Item>, modeMapped: bool, held: set<nat>)
    requires Admitted(items, Names(products)) && Below(products, nextId)
    ensures (forall trouble: nat -> Trouble
               | !AfterRows(products, nextId, items, |items|, modeMapped, held, trouble).aborted
               :: AfterRows(products, nextId, items, |items|, modeMapped, held, trouble).tally.created
                    <= |NewKeys(items, Names(products))|)
       <==> |NewTexts(items, Names(products))| <= |NewKeys(items, Names(products))|
  {
    AllNewMade(products, nextId, items, modeMapped, held);
    forall trouble: nat -> Trouble | !AfterRows(products, nextId, items, |items|, modeMapped, held, trouble).aborted
      ensures AfterRows(products, nextId, items, |items|, modeMapped, held, trouble).tally.created <= |NewTexts(items, Names(products))|
    {
      RowsAreSound(products, nextId, items, modeMapped, held, trouble);
    }
  }

  lemma AllNewMade(products: Products, nextId: nat, items: seq<Item>, modeMapped: bool, held: set<nat>)
    requires Admitted(items, Names(products)) && Below(products, nextId)
    ensures var s := AfterRows(products, nextId, items, |items|, modeMapped, held, OnlyNew(items, Names(products)));
            !s.aborted && s.tally.created == |NewTexts(items, Names(products))|
  {
    var known := Names(products);
    OnlyNewMakesAll(products, nextId, items, |items|, modeMapped, held, OnlyNew(items, known));
    var made := RowsProgress(products, nextId, items, |items|, modeMapped, held, OnlyNew(items, known));
    var s := AfterRows(products, nextId, items, |items|, modeMapped, held, OnlyNew(items, known));
    forall t | t in NewTexts(items, known) ensures t in made {
      var j :| 0 <= j < |items| && !items[j].action.Error? && NameText(items[j].data.name) == t;
      assert t in Names(s.products);
    }
    assert made == NewTexts(items, known);
  }

  /** Two rows without any fault, named 1 and true, make two products on a reservation of one. */
  lemma OneKeyTwoProducts()
    ensures var rows := [PlainRow(Number(1)), PlainRow(Flag(true))];
            var items := Previewed(rows, 2, PLAIN, {});
            && Reported(rows, 2, PLAIN, {}) == []
            && |NewTexts(items, {})| == 2 && |NewKeys(items, {})| == 1
            && AfterRows(map[], 0, items, 2, false, {}, OnlyNew(items, {})).tally.created == 2
  {
    var rows := [PlainRow(Number(1)), PlainRow(Flag(true))];
    var items := Previewed(rows, 2, PLAIN, {});
    PlainRowIsFine(Number(1), {});
    PlainRowIsFine(Flag(true), {});
    PreviewedAt(rows, 2, PLAIN, {}, 0);
    PreviewedAt(rows, 2, PLAIN, {}, 1);
    OneAndTrue(items);
    IntoNothing(rows, PLAIN);
    assert Reported(rows, 0, PLAIN, {}) == [] && Reported(rows, 1, PLAIN, {}) == [];
  }

  /** Into an empty catalogue every text makes a product. */
  lemma IntoNothing(rows: seq<Row>, mapping: set<Column>)
    ensures var items := Previewed(rows, |rows|, mapping, {});
            AfterRows(map[], 0, items, |rows|, false, {}, OnlyNew(items, {})).tally.created == |NewTexts(items, {})|
  {
    var items := Previewed(rows, |rows|, mapping, {});
    assert Names(map[]) == {};
    AdmittedRows(rows, |rows|, mapping, {}, items);
    AllNewMade(map[], 0, items, false, {});
  }

  lemma OneAndTrue(items: seq<Item>)
    requires |items| == 2 && !items[0].action.Error? && !items[1].action.Error?
    requires items[0].data.name == Number(1) && items[1].data.name == Flag(true)
    ensures |NewTexts(items, {})| == 2 && |NewKeys(items, {})| == 1
  {
    assert NewTexts(items, {}) == {"1", "True"};
    assert NewKeys(items, {}) == {Worth(1.0)};
  }

  function Making(made: set<string>, outcome: RowResult, item: Item): set<string> {
    if outcome.Created? then made + {NameText(item.data.name)} else made
  }

  lemma RowProgress(before: Products, now: Products, next: nat, items: seq<Item>, t: Tally, made: set<string>,
                    modeMapped: bool, held: set<nat>, trouble: Trouble)
    requires Progress(before, now, items, t, made, modeMapped, held) && Admitted(items, Names(before))
    requires Below(now, next)
    requires t.done < |items| && !items[t.done].action.Error?
    requires !RowResultOf(now, items[t.done], modeMapped, held, trouble).Ambiguous?
    ensures var item := items[t.done];
            var outcome := RowResultOf(now, item, modeMapped, held, trouble);
            Progress(before, RowApplied(now, next, item, modeMapped, held, trouble), items, Recorded(t, outcome, item),
                     Making(made, outcome, item), modeMapped, held)
  {
    var item := items[t.done];
    var outcome := RowResultOf(now, item, modeMapped, held, trouble);
    var now' := RowApplied(now, next, item, modeMapped, held, trouble);
    StockedNext(before, now, next, items, t.done, made, modeMapped, held, trouble);
    assert Stocked(before, now', NewTexts(items, Names(before)), Making(made, outcome, item), modeMapped, held);
    RowListed(items, t, outcome, made, Names(now), Names(now'));
  }

  lemma RowListed(items: seq<Item>, t: Tally, outcome: RowResult, made: set<string>, names: set<string>, names': set<string>)
    requires t.done < |items| && !items[t.done].action.Error? && !outcome.Ambiguous?
    requires Done(items, t.items, t.done, names) && Tallied(items, t) && t.created == |made| && names <= names'
    requires outcome.Failed? || NameText(items[t.done].data.name) in names'
    requires outcome.Created? ==> NameText(items[t.done].data.name) !in made
    ensures var t' := Recorded(t, outcome, items[t.done]);
            && Done(items, t'.items, t'.done, names') && Tallied(items, t')
            && t'.created == |Making(made, outcome, items[t.done])|
  {
    DoneNext(items, t.items, t.done, names, names', outcome.Failed?);
    TallyNext(items, t, outcome);
  }

  lemma ErrorPassedOver(before: Products, now: Products, items: seq<Item>, t: Tally, made: set<string>, modeMapped: bool, held: set<nat>)
    requires Progress(before, now, items, t, made, modeMapped, held) && t.done < |items| && items[t.done].action.Error?
    ensures Progress(before, now, items, t.(done := t.done + 1), made, modeMapped, held)
  {
    DoneNext(items, t.items, t.done, Names(now), Names(now), false);
    ErrorTallied(items, t);
    assert Done(items, t.items, t.done + 1, Names(now));
  }

  lemma ErrorTallied(items: seq<Item>, t: Tally)
    requires Tallied(items, t) && t.done < |items| && items[t.done].action.Error? && t.items[t.done] == items[t.done]
    ensures Tallied(items, t.(done := t.done + 1))
  {}

  /** Every row done so far is counted once: as created, as updated or as an error, and the errors
      recorded on the way are those the list did not start with. */
  ghost predicate Tallied(items: seq<Item>, t: Tally) {
    && t.done <= |items| && |t.items| == |items|
    && t.created + t.updated + Count(t.items, t.done, Error) == t.done
    && |t.errors| + Count(items, t.done, Error) == Count(t.items, t.done, Error)
  }

  lemma TallyNext(items: seq<Item>, t: Tally, outcome: RowResult)
    requires t.done < |items| && Tallied(items, t) && t.items[t.done] == items[t.done]
    requires !items[t.done].action.Error? && !outcome.Ambiguous?
    ensures Tallied(items, Recorded(t, outcome, items[t.done]))
  {
    if outcome.Failed? { CountStays(t.items, t.done, items[t.done].(action := Error), t.done, Error); }
  }

  lemma NothingMade(products: Products, items: seq<Item>, modeMapped: bool, held: set<nat>)
    ensures Progress(products, products, items, Tally(items, 0, [], 0, 0), {}, modeMapped, held)
  {}

  /** Where the catalogue stands after some rows: `made` are those of the `wanted` names
      that became products. */
  ghost predicate Stocked(before: Products, now: Products, wanted: set<string>, made: set<string>, modeMapped: bool, held: set<nat>) {
    && Preserved(before, now, modeMapped, held)
    && |now| == |before| + |made| && made <= wanted
    && Names(now) == Names(before) + made
    && (forall id | id in now && id !in before :: CleanStock(now[id]))
  }

  /** Where the list of rows stands: the first i are done, and the names of those let through exist. */
  ghost predicate Done(items: seq<Item>, after: seq<Item>, i: nat, names: set<string>) {
    && i <= |items| && Demotes(items, after)
    && (forall j | i <= j < |items| :: after[j] == items[j])
    && (forall j | 0 <= j < i && !after[j].action.Error? :: NameText(items[j].data.name) in names)
  }

  lemma {:induction false} CountStays(items: seq<Item>, i: nat, item: Item, n: nat, action: Action)
    requires n <= i < |items|
    ensures Count(items[i := item], n, action) == Count(items, n, action)
  {
    if n > 0 { CountStays(items, i, item, n - 1, action); }
  }

  lemma PreservedTwice(a: Products, b: Products, c: Products, modeMapped: bool, held: set<nat>)
    requires Preserved(a, b, modeMapped, held) && Preserved(b, c, modeMapped, held)
    ensures Preserved(a, c, modeMapped, held)
  {
    forall id | id in a ensures id in c && c[id].name == a[id].name && c[id].buckets == a[id].buckets
      ensures c[id].tracking != a[id].tracking ==> modeMapped && NoStock(a[id]) && id !in held
    {
      assert b[id].buckets == a[id].buckets;
    }
  }

  lemma StockedNext(before: Products, now: Products, next: nat, items: seq<Item>, i: nat, made: set<string>,
                    modeMapped: bool, held: set<nat>, trouble: Trouble)
    requires i < |items| && Stocked(before, now, NewTexts(items, Names(before)), made, modeMapped, held)
    requires Admitted(items, Names(before)) && Below(now, next)
    requires !items[i].action.Error?
    ensures var outcome := RowResultOf(now, items[i], modeMapped, held, trouble);
            var now' := RowApplied(now, next, items[i], modeMapped, held, trouble);
            && (outcome.Created? ==> NameText(items[i].data.name) !in made)
            && (outcome.Created? ==> Stocked(before, now', NewTexts(items, Names(before)), made + {NameText(items[i].data.name)}, modeMapped, held))
            && (!outcome.Created? ==> Stocked(before, now', NewTexts(items, Names(before)), made, modeMapped, held))
            && Names(now) <= Names(now')
            && (outcome.Created? || outcome.Updated? ==> NameText(items[i].data.name) in Names(now'))
  {
    var outcome := RowResultOf(now, items[i], modeMapped, held, trouble);
    var now' := RowApplied(now, next, items[i], modeMapped, held, trouble);
    RowMeaning(now, next, items[i], modeMapped, held, trouble);
    PreservedTwice(before, now, now', modeMapped, held);
    if outcome.Created? {
      assert items[i].action.Create?;
      var text := NameText(items[i].data.name);
      assert text in NewTexts(items, Names(before));
      StockedAdd(before, now, next, NewProduct(items[i].data), text, NewTexts(items, Names(before)), made, modeMapped, held);
    } else {
      StillClean(before, now, now', modeMapped, held);
    }
  }

  lemma StockedAdd(before: Products, now: Products, next: nat, p: Product, text: string, wanted: set<string>, made: set<string>,
                   modeMapped: bool, held: set<nat>)
    requires Stocked(before, now, wanted, made, modeMapped, held) && next !in now
    requires CleanStock(p) && p.name == text && text !in Names(now) && text in wanted
    requires Preserved(before, now[next := p], modeMapped, held) && Names(now[next := p]) == Names(now) + {text}
    ensures text !in made
    ensures Stocked(before, now[next := p], wanted, made + {text}, modeMapped, held)
  {
    OneMore(now, next, p);
    NamesAdd(Names(before), Names(now), Names(now[next := p]), made, wanted, text);
    assert Names(now[next := p]) == Names(before) + (made + {text});
    AddedClean(before, now, next, p);
  }

  lemma OneMore(products: Products, next: nat, p: Product)
    requires next !in products
    ensures |products[next := p]| == |products| + 1
  {
    assert products[next := p].Keys == products.Keys + {next};
  }

  lemma NamesAdd(was: set<string>, now: set<string>, after: set<string>, made: set<string>, wanted: set<string>, text: string)
    requires now == was + made && made <= wanted && text in wanted && text !in now && after == now + {text}
    ensures text !in made && after == was + (made + {text}) && made + {text} <= wanted && |made + {text}| == |made| + 1
  {}

  lemma AddedClean(before: Products, now: Products, next: nat, p: Product)
    requires CleanStock(p) && forall id | id in now && id !in before :: CleanStock(now[id])
    ensures forall id | id in now[next := p] && id !in before :: CleanStock(now[next := p][id])
  {}

  /** The list after one more row, whether it was let through or its failure recorded. */
  lemma DoneNext(items: seq<Item>, after: seq<Item>, i: nat, names: set<string>, names': set<string>, failed: bool)
    requires i < |items| && Done(items, after, i, names) && names <= names'
    requires items[i].action.Error? || failed || NameText(items[i].data.name) in names'
    ensures Done(items, if failed then after[i := items[i].(action := Error)] else after, i + 1, names')
  {}

  lemma StillClean(before: Products, now: Products, now': Products, modeMapped: bool, held: set<nat>)
    requires Preserved(now, now', modeMapped, held) && now'.Keys == now.Keys
    requires forall id | id in now && id !in before :: CleanStock(now[id])
    ensures forall id | id in now' && id !in before :: CleanStock(now'[id])
  {
    forall id | id in now' && id !in before ensures CleanStock(now'[id]) {
      assert id in now && now'[id].buckets == now[id].buckets && CleanStock(now[id]);
    }
  }

  /** Nothing made beyond the reserved names, and all of them if no row failed. */
  lemma MadeIsReserved(before: Products, now: Products, items: seq<Item>, after: seq<Item>, made: set<string>,
                       modeMapped: bool, held: set<nat>)
    requires Stocked(before, now, NewTexts(items, Names(before)), made, modeMapped, held) && Done(items, after, |items|, Names(now))
    ensures |made| <= |NewTexts(items, Names(before))|
    ensures after == items ==> made == NewTexts(items, Names(before))
  {
    SubsetSize(made, NewTexts(items, Names(before)));
    if after == items {
      forall t | t in NewTexts(items, Names(before)) ensures t in made {
        var i :| 0 <= i < |items| && !items[i].action.Error? && NameText(items[i].data.name) == t;
        assert NameText(items[i].data.name) in Names(now);
      }
    }
  }

  /** What one applied row means for the whole catalogue. */
  lemma RowMeaning(products: Products, nextId: nat, item: Item, modeMapped: bool, held: set<nat>, trouble: Trouble)
    requires Below(products, nextId)
    ensures var outcome := RowResultOf(products, item, modeMapped, held, trouble);
            var after := RowApplied(products, nextId, item, modeMapped, held, trouble);
            var name := NameText(item.data.name);
            && Preserved(products, after, modeMapped, held)
            && (outcome.Created? ==> name !in Names(products) && after == products[nextId := NewProduct(item.data)]
                                     && Names(after) == Names(products) + {name})
            && (!outcome.Created? ==> after.Keys == products.Keys && Names(after) == Names(products))
            && (outcome.Updated? ==> name in Names(products))
  {
    var outcome := RowResultOf(products, item, modeMapped, held, trouble);
    var after := RowApplied(products, nextId, item, modeMapped, held, trouble);
    var name := NameText(item.data.name);
    match outcome
    case Created =>
      assert forall id | id in products :: id !in Matching(products, name);
      assert after[nextId].name == name;
      assert forall id | id in products :: after[id] == products[id];
    case Updated =>
      var id := MinOf(Matching(products, name));
      assert id in Matching(products, name);
      assert forall k | k in products :: k in after && after[k].name == products[k].name;
    case Failed =>
    case Ambiguous =>
  }
}
