/** The cross-checks of a Print manifest: its bag rows against its recap and against the expected count.
    Tables arrive as cells of text; weights are real numbers. */
module ManifestPrint {
  import opened Options
  import opened Picked
  import opened Text

  const MAX_BAGS := 10_000
  const MAX_COUNT := 18_446_744_073_709_551_615
  const TOLERANCE := 0.000001

  type Cells = seq<string>
  type Product = Option<string>

  datatype Defect =
    | IncompleteBagRow | InvalidBagId | DuplicateBagId | TooManyBags | InvalidBagWeight | UnexpectedBagCount
    | MissingRecap | IncompleteRecapRow | InvalidRecapCount | InvalidRecapWeight | DuplicateTotal
    | DuplicateProduct | ProductMismatch | MissingProduct | MissingTotal | TotalMismatch

  datatype Item = Item(
    no: Option<string>, bagId: string, product: Product, weight: string,
    origin: Option<string>, destination: Option<string>)

  datatype Summary = Summary(product: Product, count: nat, kg: real)

  datatype Manifest = Manifest(items: seq<Item>, count: nat, kg: real, recap: seq<Summary>)

  // ---------- cells ----------

  function WithoutColons(s: string): string {
    if s != [] && s[0] == ':' then WithoutColons(s[1..]) else s
  }

  function Optional(cell: string): Option<string> {
    var value := Trim(WithoutColons(Trim(cell)));
    if value == [] || Lower(value) in ["-", "null", "undefined"] then None else Some(value)
  }

  function PowerOfTen(n: nat): (p: real)
    ensures p >= 1.0
  {
    if n == 0 then 1.0 else 10.0 * PowerOfTen(n - 1)
  }

  function FirstPoint(s: string): (at: nat)
    ensures at <= |s| && '.' !in s[..at] && (at < |s| ==> s[at] == '.')
  {
    if s == [] || s[0] == '.' then 0 else 1 + FirstPoint(s[1..])
  }

  /** The digits before and behind the point, at least one of them. */
  function ReadAs(whole: string, fraction: string): (value: Option<real>)
    ensures value.Some? ==> value.value >= 0.0
  {
    var digits := whole + fraction;
    if digits == [] || !AllDigits(digits) then None else Some(Number(digits) as real / PowerOfTen(|fraction|))
  }

  /** Decimal notation with at most one point, and at least one digit. */
  function Decimal(s: string): (value: Option<real>)
    ensures value.Some? ==> value.value >= 0.0
  {
    var point := FirstPoint(s);
    ReadAs(s[..point], if point < |s| then s[point + 1..] else "")
  }

  function PointFor(c: char): char {
    if c == ',' then '.' else c
  }

  function Pointed(value: string): string {
    seq(|value|, i requires 0 <= i < |value| => PointFor(value[i]))
  }

  function Weight(cell: string): (kg: Option<real>)
    ensures kg.Some? ==> kg.value >= 0.0
  {
    var value := Trim(cell);
    if value == [] || exists i :: 0 <= i < |value| && !IsDigit(value[i]) && value[i] != '.' && value[i] != ',' then None
    else Decimal(Pointed(value))
  }

  /** `parse::<usize>`: digits, a plus sign before them allowed. */
  function Count(cell: string): Option<nat> {
    var digits := if cell != [] && cell[0] == '+' then cell[1..] else cell;
    if digits == [] || !AllDigits(digits) || Number(digits) > MAX_COUNT then None else Some(Number(digits))
  }

  predicate Close(a: real, b: real) {
    -TOLERANCE <= a - b <= TOLERANCE
  }

  // ---------- what cells mean ----------

  lemma {:induction false} ColonsGo(s: string) returns (n: nat)
    ensures n <= |s| && WithoutColons(s) == s[n..] && (n < |s| ==> s[n] != ':')
    ensures forall k :: 0 <= k < n ==> s[k] == ':'
  {
    n := 0;
    if s != [] && s[0] == ':' {
      var m := ColonsGo(s[1..]);
      n := m + 1;
      assert s[1..][m..] == s[n..] && forall k :: 0 < k < n ==> s[k] == s[1..][k - 1];
    }
  }

  predicate IsBlank(s: string) {
    forall i :: 0 <= i < |s| ==> IsSpace(s[i])
  }

  predicate IsColons(s: string) {
    forall i :: 0 <= i < |s| ==> s[i] == ':'
  }

  /** Nothing, or a text with no space at either end. */
  predicate IsTrimmed(s: string) {
    s != [] ==> !IsSpace(s[0]) && !IsSpace(s[|s| - 1])
  }

  lemma TrimmedOf(s: string) returns (before: string, after: string)
    ensures s == before + Trim(s) + after && IsBlank(before) && IsBlank(after) && IsTrimmed(Trim(s))
  {
    var i, j := TrimCutsSpaces(s);
    before, after := s[..i], s[j..];
    assert s == s[..i] + s[i..j] + s[j..];
  }

  /** A cell's text is what is left without the spaces around it, the colons in front of that, and the spaces
      around the rest; dashes and words for nothing are nothing. */
  lemma OptionalIsCore(cell: string, nothing: seq<string>)
    returns (a: string, colons: string, b: string, core: string, c: string, d: string)
    requires nothing == ["-", "null", "undefined"]
    ensures var rest := b + core + c;
      && cell == a + (colons + rest) + d && IsBlank(a) && IsBlank(d) && IsTrimmed(colons + rest)
      && IsColons(colons) && (rest != [] ==> rest[0] != ':') && IsBlank(b) && IsBlank(c) && IsTrimmed(core)
    ensures Optional(cell) == if core == [] || Lower(core) in nothing then None else Some(core)
  {
    var text, n;
    a, d := TrimmedOf(cell);
    text := Trim(cell);
    n := ColonsGo(text);
    colons := text[..n];
    b, c := TrimmedOf(text[n..]);
    core := Trim(text[n..]);
    assert text == colons + text[n..];
  }

  /** The number with so many zeros behind it. */
  function Shifted(number: real, places: nat): real {
    if places == 0 then number else 10.0 * Shifted(number, places - 1)
  }

  lemma TenTimes(number: real, power: real)
    ensures 10.0 * (number * power) == number * (10.0 * power)
  {
  }

  lemma {:induction false} ShiftedIs(number: real, places: nat)
    ensures Shifted(number, places) == number * PowerOfTen(places)
  {
    if places > 0 {
      ShiftedIs(number, places - 1);
      TenTimes(number, PowerOfTen(places - 1));
    }
  }

  lemma Shares(total: real, whole: real, power: real, rest: real)
    requires power >= 1.0 && total == whole * power + rest
    ensures total / power == whole + rest / power
  {
  }

  lemma DigitsOfBoth(a: string, b: string)
    requires AllDigits(a + b)
    ensures AllDigits(a) && AllDigits(b)
  {
    assert forall i :: 0 <= i < |a| ==> (a + b)[i] == a[i];
    assert forall i :: 0 <= i < |b| ==> (a + b)[|a| + i] == b[i];
  }

  lemma {:induction false} NumberOfBoth(a: string, b: string)
    requires AllDigits(a) && AllDigits(b)
    ensures AllDigits(a + b)
    ensures Number(a + b) as real == Shifted(Number(a) as real, |b|) + Number(b) as real
  {
    if b == [] {
      assert a + b == a;
    } else {
      var init, last := b[..|b| - 1], b[|b| - 1];
      NumberOfBoth(a, init);
      assert (a + b)[..|a + b| - 1] == a + init;
    }
  }

  lemma PointIs(whole: string, fraction: string)
    requires AllDigits(whole) && AllDigits(fraction)
    ensures FirstPoint(whole) == |whole| && FirstPoint(whole + "." + fraction) == |whole|
  {
    var text := whole + "." + fraction;
    assert '.' !in whole && text[|whole|] == '.';
    assert forall k :: 0 <= k < |whole| ==> text[k] == whole[k];
  }

  /** A weight: digits, or digits with one point or comma among them. */
  predicate IsDecimal(value: string, whole: string, fraction: string) {
    && AllDigits(whole) && AllDigits(fraction) && whole + fraction != []
    && ((value == whole && fraction == []) || value == whole + "." + fraction || value == whole + "," + fraction)
  }

  lemma PointedIs(value: string, whole: string, fraction: string)
    requires IsDecimal(value, whole, fraction)
    ensures Pointed(value) == if value == whole && fraction == [] then whole else whole + "." + fraction
    ensures value != [] && forall i :: 0 <= i < |value| ==> IsDigit(value[i]) || value[i] == '.' || value[i] == ','
  {
    if |value| > |whole| {
      assert value[..|whole|] == whole && value[|whole| + 1..] == fraction;
    }
  }

  /** It weighs what it says: its whole part and its fraction. */
  lemma WeightOfDecimal(cell: string, whole: string, fraction: string)
    requires IsDecimal(Trim(cell), whole, fraction)
    ensures Weight(cell) == Some(Number(whole) as real + Number(fraction) as real / PowerOfTen(|fraction|))
  {
    var value := Trim(cell);
    PointedIs(value, whole, fraction);
    PointIs(whole, fraction);
    ReadAsIs(whole, fraction);
    var text := Pointed(value);
    assert text[..|whole|] == whole && (|whole| < |text| ==> text[|whole| + 1..] == fraction);
    DecimalOf(text, whole, fraction);
  }

  lemma ReadAsIs(whole: string, fraction: string)
    requires AllDigits(whole) && AllDigits(fraction) && whole + fraction != []
    ensures ReadAs(whole, fraction) == Some(Number(whole) as real + Number(fraction) as real / PowerOfTen(|fraction|))
  {
    NumberOfBoth(whole, fraction);
    Quotient(Number(whole + fraction) as real, Number(whole) as real, |fraction|, Number(fraction) as real);
  }

  lemma Quotient(total: real, whole: real, places: nat, rest: real)
    requires total == Shifted(whole, places) + rest
    ensures total / PowerOfTen(places) == whole + rest / PowerOfTen(places)
  {
    ShiftedIs(whole, places);
    Shares(total, whole, PowerOfTen(places), rest);
  }

  lemma DecimalOf(text: string, whole: string, fraction: string)
    requires FirstPoint(text) == |whole| && text[..|whole|] == whole
    requires if |whole| < |text| then text[|whole| + 1..] == fraction else fraction == []
    ensures Decimal(text) == ReadAs(whole, fraction)
  {
    assert (if FirstPoint(text) < |text| then text[FirstPoint(text) + 1..] else "") == fraction;
  }

  /** And nothing else is a weight. */
  lemma WeightsAreDecimal(cell: string) returns (whole: string, fraction: string)
    requires Weight(cell).Some?
    ensures IsDecimal(Trim(cell), whole, fraction)
  {
    var value := Trim(cell);
    var text := Pointed(value);
    var point := FirstPoint(text);
    whole, fraction := text[..point], if point < |text| then text[point + 1..] else "";
    DecimalOf(text, whole, fraction);
    DigitsOfBoth(whole, fraction);
    UnpointedIs(value, point);
  }

  lemma UnpointedIs(value: string, point: nat)
    requires point <= |value| && AllDigits(Pointed(value)[..point])
    requires point < |value| ==> AllDigits(Pointed(value)[point + 1..])
    ensures Pointed(value)[..point] == value[..point]
    ensures point < |value| ==>
      Pointed(value)[point + 1..] == value[point + 1..] && value == value[..point] + [value[point]] + value[point + 1..]
  {
    var text := Pointed(value);
    assert forall i :: 0 <= i < point ==> text[i] == text[..point][i];
    if point < |value| {
      assert forall i :: point < i < |value| ==> text[i] == text[point + 1..][i - point - 1];
    }
  }

  /** A count: digits, with or without a plus sign, that 64 bits can hold. */
  predicate IsCount(cell: string, digits: string) {
    digits != [] && AllDigits(digits) && (cell == digits || cell == "+" + digits)
  }

  lemma CountOfDigits(cell: string, digits: string)
    requires IsCount(cell, digits)
    ensures Count(cell) == if Number(digits) < 0x1_0000_0000_0000_0000 then Some(Number(digits)) else None
  {
    assert cell != digits ==> cell[0] == '+' && cell[1..] == digits;
  }

  lemma CountsAreDigits(cell: string) returns (digits: string)
    requires Count(cell).Some?
    ensures IsCount(cell, digits)
  {
    digits := if cell[0] == '+' then cell[1..] else cell;
  }

  // ---------- what bags add up to ----------

  /** What the totals are about: a bag's product and weight. */
  datatype Lot = Lot(product: Product, kg: real)

  /** How many of the first n lots have one of the products, and what they weigh together. */
  function CountWithin(lots: seq<Lot>, n: nat, products: set<Product>): (count: nat)
    requires n <= |lots|
    ensures count <= n
  {
    if n == 0 then 0 else CountWithin(lots, n - 1, products) + if lots[n - 1].product in products then 1 else 0
  }

  function KgWithin(lots: seq<Lot>, n: nat, products: set<Product>): real
    requires n <= |lots|
  {
    if n == 0 then 0.0 else
      KgWithin(lots, n - 1, products) + if lots[n - 1].product in products then lots[n - 1].kg else 0.0
  }

  function TotalKg(lots: seq<Lot>, n: nat): real
    requires n <= |lots|
  {
    if n == 0 then 0.0 else TotalKg(lots, n - 1) + lots[n - 1].kg
  }

  function Products(lots: seq<Lot>, n: nat): set<Product>
    requires n <= |lots|
  {
    if n == 0 then {} else Products(lots, n - 1) + {lots[n - 1].product}
  }

  lemma {:induction false} OneMoreProduct(lots: seq<Lot>, n: nat, products: set<Product>, product: Product)
    requires n <= |lots| && product !in products
    ensures CountWithin(lots, n, products + {product})
         == CountWithin(lots, n, products) + CountWithin(lots, n, {product})
    ensures KgWithin(lots, n, products + {product}) == KgWithin(lots, n, products) + KgWithin(lots, n, {product})
  {
    if n > 0 {
      OneMoreProduct(lots, n - 1, products, product);
    }
  }

  lemma {:induction false} NoProducts(lots: seq<Lot>, n: nat)
    requires n <= |lots|
    ensures CountWithin(lots, n, {}) == 0 && KgWithin(lots, n, {}) == 0.0
  {
    if n > 0 {
      NoProducts(lots, n - 1);
    }
  }

  lemma {:induction false} AllProducts(lots: seq<Lot>, n: nat, products: set<Product>)
    requires n <= |lots| && Products(lots, n) <= products
    ensures CountWithin(lots, n, products) == n && KgWithin(lots, n, products) == TotalKg(lots, n)
  {
    if n > 0 {
      AllProducts(lots, n - 1, products);
    }
  }

  type Tallies = map<Product, (nat, real)>

  /** One tally for every product of the first n lots: how many have it, and what they weigh. */
  ghost predicate AreTallies(lots: seq<Lot>, n: nat, tallies: Tallies)
    requires n <= |lots|
  {
    && tallies.Keys == Products(lots, n)
    && forall p :: p in tallies ==> tallies[p] == (CountWithin(lots, n, {p}), KgWithin(lots, n, {p}))
  }

  lemma {:induction false} NotTallied(lots: seq<Lot>, n: nat, product: Product)
    requires n <= |lots| && product !in Products(lots, n)
    ensures CountWithin(lots, n, {product}) == 0 && KgWithin(lots, n, {product}) == 0.0
  {
    if n > 0 {
      NotTallied(lots, n - 1, product);
    }
  }

  function Tally(tallies: Tallies, product: Product): (nat, real) {
    if product in tallies then tallies[product] else (0, 0.0)
  }

  lemma TallyIs(lots: seq<Lot>, n: nat, tallies: Tallies, product: Product)
    requires n <= |lots| && AreTallies(lots, n, tallies)
    ensures Tally(tallies, product) == (CountWithin(lots, n, {product}), KgWithin(lots, n, {product}))
  {
    if product !in tallies {
      NotTallied(lots, n, product);
    }
  }

  // ---------- acceptable bag rows ----------

  predicate IsBagRow(row: Cells, normalise: string -> Option<string>) {
    |row| == 6 && normalise(row[1]).Some? && Weight(row[3]).Some?
  }

  ghost predicate GoodBagRows(rows: seq<Cells>, normalise: string -> Option<string>) {
    && |rows| <= MAX_BAGS
    && (forall i :: 0 <= i < |rows| ==> IsBagRow(rows[i], normalise))
    && (forall i, j :: 0 <= i < j < |rows| ==> normalise(rows[i][1]) != normalise(rows[j][1]))
  }

  function ItemOf(row: Cells, normalise: string -> Option<string>): Item
    requires IsBagRow(row, normalise)
  {
    Item(Optional(row[0]), normalise(row[1]).value, Optional(row[2]), row[3], Optional(row[4]), Optional(row[5]))
  }

  function LotOf(row: Cells): Lot
    requires |row| == 6 && Weight(row[3]).Some?
  {
    Lot(Optional(row[2]), Weight(row[3]).value)
  }

  /** The items and lots of the first n rows, all of them acceptable. */
  ghost predicate AreItemsOf(
    rows: seq<Cells>, n: nat, normalise: string -> Option<string>, items: seq<Item>, lots: seq<Lot>)
    requires n <= |rows|
  {
    && |items| == n == |lots|
    && forall i :: 0 <= i < n ==>
         IsBagRow(rows[i], normalise) && items[i] == ItemOf(rows[i], normalise) && lots[i] == LotOf(rows[i])
  }

  /** Why a bag table is refused: the defect is one that the table has. */
  ghost predicate HasBagDefect(rows: seq<Cells>, normalise: string -> Option<string>, defect: Defect) {
    match defect
    case IncompleteBagRow => exists i :: 0 <= i < |rows| && |rows[i]| != 6
    case InvalidBagId => exists i :: 0 <= i < |rows| && |rows[i]| == 6 && normalise(rows[i][1]).None?
    case DuplicateBagId =>
      exists i, j :: 0 <= i < j < |rows| && |rows[i]| == |rows[j]| == 6
                     && normalise(rows[i][1]).Some? && normalise(rows[i][1]) == normalise(rows[j][1])
    case TooManyBags => |rows| > MAX_BAGS
    case InvalidBagWeight => exists i :: 0 <= i < |rows| && |rows[i]| == 6 && Weight(rows[i][3]).None?
    case _ => false
  }

  /** No two items have the same bag, and these are their bags. */
  ghost predicate AreDistinctBags(items: seq<Item>, seen: set<string>) {
    && (forall i, j :: 0 <= i < j < |items| ==> items[i].bagId != items[j].bagId)
    && (forall i :: 0 <= i < |items| ==> items[i].bagId in seen)
    && (forall id :: id in seen ==> exists i :: 0 <= i < |items| && items[i].bagId == id)
  }

  lemma AnotherBag(items: seq<Item>, seen: set<string>, item: Item)
    requires AreDistinctBags(items, seen) && item.bagId !in seen
    ensures AreDistinctBags(items + [item], seen + {item.bagId})
  {
    var items' := items + [item];
    assert items'[|items|] == item && forall i :: 0 <= i < |items| ==> items'[i] == items[i];
  }

  lemma RowsAreGood(
    rows: seq<Cells>, normalise: string -> Option<string>, items: seq<Item>, lots: seq<Lot>, seen: set<string>)
    requires |rows| <= MAX_BAGS && AreItemsOf(rows, |rows|, normalise, items, lots) && AreDistinctBags(items, seen)
    ensures GoodBagRows(rows, normalise)
  {
    forall i, j | 0 <= i < j < |rows| ensures normalise(rows[i][1]) != normalise(rows[j][1]) {
      assert items[i].bagId != items[j].bagId;
    }
  }

  lemma DefectIsBad(rows: seq<Cells>, normalise: string -> Option<string>, defect: Defect)
    requires HasBagDefect(rows, normalise, defect)
    ensures !GoodBagRows(rows, normalise)
  {
  }

  /** What is wrong with a row, when these bags were seen and `count` rows read before it. */
  predicate HasRowDefect(
    row: Cells, normalise: string -> Option<string>, seen: set<string>, count: nat, defect: Defect)
  {
    match defect
    case IncompleteBagRow => |row| != 6
    case InvalidBagId => |row| == 6 && normalise(row[1]).None?
    case DuplicateBagId => |row| == 6 && normalise(row[1]).Some? && normalise(row[1]).value in seen
    case TooManyBags => count >= MAX_BAGS
    case InvalidBagWeight => |row| == 6 && Weight(row[3]).None?
    case _ => false
  }

  /** The checks on one row. */
  method ReadBagRow(row: Cells, normalise: string -> Option<string>, seen: set<string>, count: nat)
    returns (result: Result<(Item, Lot), Defect>)
    ensures result.Ok? <==> IsBagRow(row, normalise) && normalise(row[1]).value !in seen && count < MAX_BAGS
    ensures result.Ok? ==> result.value == (ItemOf(row, normalise), LotOf(row))
    ensures result.Err? ==> HasRowDefect(row, normalise, seen, count, result.error)
  {
    if |row| != 6 {
      return Err(IncompleteBagRow);
    }
    var id := normalise(row[1]);
    if id.None? {
      return Err(InvalidBagId);
    }
    if id.value in seen {
      return Err(DuplicateBagId);
    }
    if count >= MAX_BAGS {
      return Err(TooManyBags);
    }
    var kg := Weight(row[3]);
    if kg.None? {
      return Err(InvalidBagWeight);
    }
    var product := Optional(row[2]);
    var item := Item(Optional(row[0]), id.value, product, row[3], Optional(row[4]), Optional(row[5]));
    result := Ok((item, Lot(product, kg.value)));
  }

  lemma RowDefectIsTables(
    rows: seq<Cells>, normalise: string -> Option<string>, items: seq<Item>, lots: seq<Lot>,
    seen: set<string>, defect: Defect)
    requires |items| < |rows| && AreItemsOf(rows, |items|, normalise, items, lots) && AreDistinctBags(items, seen)
    requires HasRowDefect(rows[|items|], normalise, seen, |items|, defect)
    ensures HasBagDefect(rows, normalise, defect)
  {
    if defect.DuplicateBagId? {
      var j :| 0 <= j < |items| && items[j].bagId == normalise(rows[|items|][1]).value;
      assert normalise(rows[j][1]) == normalise(rows[|items|][1]);
    }
  }

  lemma {:induction false} SumsOfLonger(lots: seq<Lot>, lot: Lot, n: nat, products: set<Product>)
    requires n <= |lots|
    ensures CountWithin(lots + [lot], n, products) == CountWithin(lots, n, products)
    ensures KgWithin(lots + [lot], n, products) == KgWithin(lots, n, products)
    ensures Products(lots + [lot], n) == Products(lots, n)
  {
    if n > 0 {
      SumsOfLonger(lots, lot, n - 1, products);
    }
  }

  method AddTally(ghost lots: seq<Lot>, lot: Lot, tallies: Tallies) returns (tallies': Tallies)
    requires AreTallies(lots, |lots|, tallies)
    ensures AreTallies(lots + [lot], |lots| + 1, tallies')
  {
    var tally := Tally(tallies, lot.product);
    tallies' := tallies[lot.product := (tally.0 + 1, tally.1 + lot.kg)];
    SumsOfLonger(lots, lot, |lots|, {});
    forall p | p in tallies'
      ensures tallies'[p] == (CountWithin(lots + [lot], |lots| + 1, {p}), KgWithin(lots + [lot], |lots| + 1, {p}))
    {
      TallyIs(lots, |lots|, tallies, p);
      SumsOfLonger(lots, lot, |lots|, {p});
    }
  }

  lemma ItemsGrow(
    rows: seq<Cells>, normalise: string -> Option<string>, items: seq<Item>, lots: seq<Lot>, item: Item, lot: Lot)
    requires |items| < |rows| && AreItemsOf(rows, |items|, normalise, items, lots)
    requires IsBagRow(rows[|items|], normalise)
    requires item == ItemOf(rows[|items|], normalise) && lot == LotOf(rows[|items|])
    ensures AreItemsOf(rows, |items| + 1, normalise, items + [item], lots + [lot])
  {
  }

  /** What the loop holds when the first rows were read. */
  ghost predicate HasRead(
    rows: seq<Cells>, n: nat, normalise: string -> Option<string>, items: seq<Item>, lots: seq<Lot>, seen: set<string>)
  {
    n <= |rows| && n <= MAX_BAGS && AreItemsOf(rows, n, normalise, items, lots) && AreDistinctBags(items, seen)
  }

  lemma RowAdded(
    rows: seq<Cells>, normalise: string -> Option<string>, items: seq<Item>, lots: seq<Lot>, seen: set<string>,
    read: (Item, Lot))
    requires HasRead(rows, |items|, normalise, items, lots, seen) && |items| < |rows| && |items| < MAX_BAGS
    requires IsBagRow(rows[|items|], normalise) && read == (ItemOf(rows[|items|], normalise), LotOf(rows[|items|]))
    requires read.0.bagId !in seen
    ensures HasRead(
      rows, |items| + 1, normalise, items + [read.0], lots + [read.1], seen + {read.0.bagId})
  {
    AnotherBag(items, seen, read.0);
    ItemsGrow(rows, normalise, items, lots, read.0, read.1);
  }

  method ReadBagRows(rows: seq<Cells>, normalise: string -> Option<string>)
    returns (result: Result<(seq<Item>, Tallies), Defect>, ghost lots: seq<Lot>)
    ensures result.Ok? ==> GoodBagRows(rows, normalise)
    ensures result.Ok? ==> AreItemsOf(rows, |rows|, normalise, result.value.0, lots)
    ensures result.Ok? ==> AreTallies(lots, |lots|, result.value.1)
    ensures result.Err? ==> HasBagDefect(rows, normalise, result.error)
  {
    var items: seq<Item>, seen: set<string>, tallies: Tallies := [], {}, map[];
    lots := [];
    for i := 0 to |rows|
      invariant HasRead(rows, i, normalise, items, lots, seen)
      invariant AreTallies(lots, |lots|, tallies)
    {
      var read := ReadBagRow(rows[i], normalise, seen, |items|);
      if read.Err? {
        RowDefectIsTables(rows, normalise, items, lots, seen, read.error);
        return Err(read.error), lots;
      }
      var item, lot := read.value.0, read.value.1;
      RowAdded(rows, normalise, items, lots, seen, read.value);
      seen := seen + {item.bagId};
      tallies := AddTally(lots, lot, tallies);
      items, lots := items + [item], lots + [lot];
    }
    RowsAreGood(rows, normalise, items, lots, seen);
    result := Ok((items, tallies));
  }

  // ---------- the recap ----------

  /** A recap row that can be read: the total, or a product's own. */
  datatype Line = Line(isTotal: bool, product: Product, count: nat, kg: real)

  predicate IsTotal(cell: string) {
    Lower(cell) == "total"
  }

  function ReadLine(row: Cells): (line: Result<Line, Defect>)
    ensures line.Err? ==> HasLineDefect(row, line.error)
    ensures line.Ok? ==> |row| == 3 && Count(row[1]) == Some(line.value.count) && Weight(row[2]) == Some(line.value.kg)
  {
    if |row| != 3 then Err(IncompleteRecapRow)
    else if Count(row[1]).None? then Err(InvalidRecapCount)
    else if Weight(row[2]).None? then Err(InvalidRecapWeight)
    else Ok(Line(IsTotal(row[0]), Optional(row[0]), Count(row[1]).value, Weight(row[2]).value))
  }

  lemma TotalIff(cell: string)
    requires |cell| == 5
    ensures IsTotal(cell) <==>
      LowerChar(cell[0]) == 't' && LowerChar(cell[1]) == 'o' && LowerChar(cell[2]) == 't'
      && LowerChar(cell[3]) == 'a' && LowerChar(cell[4]) == 'l'
  {
    var chars := [LowerChar(cell[0]), LowerChar(cell[1]), LowerChar(cell[2]), LowerChar(cell[3]), LowerChar(cell[4])];
    assert Lower(cell) == chars;
    assert chars == "total" <==>
      chars[0] == 't' && chars[1] == 'o' && chars[2] == 't' && chars[3] == 'a' && chars[4] == 'l';
  }

  predicate IsEither(c: char, lower: char, upper: char) {
    c == lower || c == upper
  }

  /** A line is the total if its first cell reads "total" in any case, and else about the product there. */
  lemma LineIs(row: Cells)
    requires ReadLine(row).Ok?
    ensures ReadLine(row).value.product == Optional(row[0])
    ensures ReadLine(row).value.isTotal <==>
      && |row[0]| == 5 && IsEither(row[0][0], 't', 'T') && IsEither(row[0][1], 'o', 'O')
      && IsEither(row[0][2], 't', 'T') && IsEither(row[0][3], 'a', 'A') && IsEither(row[0][4], 'l', 'L')
  {
    if |row[0]| == 5 { TotalIff(row[0]); }
  }

  predicate HasLineDefect(row: Cells, defect: Defect) {
    match defect
    case IncompleteRecapRow => |row| != 3
    case InvalidRecapCount => |row| == 3 && Count(row[1]).None?
    case InvalidRecapWeight => |row| == 3 && Weight(row[2]).None?
    case _ => false
  }

  predicate AreReadable(rows: seq<Cells>, n: nat)
    requires n <= |rows|
  {
    forall i :: 0 <= i < n ==> ReadLine(rows[i]).Ok?
  }

  function LinesOf(rows: seq<Cells>, n: nat): (lines: seq<Line>)
    requires n <= |rows| && AreReadable(rows, n)
    ensures |lines| == n && forall i :: 0 <= i < n ==> ReadLine(rows[i]) == Ok(lines[i])
  {
    seq(n, i requires 0 <= i < n <= |rows| && ReadLine(rows[i]).Ok? => ReadLine(rows[i]).value)
  }

  /** The products that lines are about; the total is about none. */
  function LineProducts(lines: seq<Line>): set<Product> {
    if lines == [] then {} else
      var last := lines[|lines| - 1];
      LineProducts(lines[..|lines| - 1]) + if last.isTotal then {} else {last.product}
  }

  function SummariesOf(lines: seq<Line>): seq<Summary> {
    if lines == [] then [] else
      var last := lines[|lines| - 1];
      SummariesOf(lines[..|lines| - 1]) + if last.isTotal then [] else [Summary(last.product, last.count, last.kg)]
  }

  function TotalsOf(lines: seq<Line>): seq<(nat, real)> {
    if lines == [] then [] else
      var last := lines[|lines| - 1];
      TotalsOf(lines[..|lines| - 1]) + if last.isTotal then [(last.count, last.kg)] else []
  }

  predicate Matches(lots: seq<Lot>, line: Line) {
    && line.count == CountWithin(lots, |lots|, {line.product})
    && Close(line.kg, KgWithin(lots, |lots|, {line.product}))
  }

  /** Every product line is true of the bags, and no product has two lines. */
  ghost predicate AreTrueLines(lots: seq<Lot>, lines: seq<Line>) {
    && (forall i :: 0 <= i < |lines| && !lines[i].isTotal ==> Matches(lots, lines[i]))
    && (forall i, j :: 0 <= i < j < |lines| && !lines[i].isTotal && !lines[j].isTotal ==>
          lines[i].product != lines[j].product)
  }

  /** A recap that fits the bags: true lines, one for every product there is, and one true total. */
  ghost predicate IsTrueRecap(lots: seq<Lot>, lines: seq<Line>) {
    && AreTrueLines(lots, lines)
    && Products(lots, |lots|) <= LineProducts(lines)
    && |TotalsOf(lines)| == 1 && TotalsOf(lines)[0].0 == |lots| && Close(TotalsOf(lines)[0].1, TotalKg(lots, |lots|))
  }

  ghost predicate HasRecapDefect(lots: seq<Lot>, lines: seq<Line>, defect: Defect) {
    match defect
    case DuplicateTotal => |TotalsOf(lines)| > 1
    case DuplicateProduct => exists i, j :: 0 <= i < j < |lines| && !lines[i].isTotal && !lines[j].isTotal
                                             && lines[i].product == lines[j].product
    case ProductMismatch => exists i :: 0 <= i < |lines| && !lines[i].isTotal && !Matches(lots, lines[i])
    case _ => false
  }

  lemma {:induction false} ProductHasLine(lines: seq<Line>, product: Product) returns (i: nat)
    requires product in LineProducts(lines)
    ensures i < |lines| && !lines[i].isTotal && lines[i].product == product
  {
    i := |lines| - 1;
    if lines[i].isTotal || lines[i].product != product {
      i := ProductHasLine(lines[..i], product);
    }
  }

  lemma {:induction false} LineHasProduct(lines: seq<Line>, i: nat)
    requires i < |lines| && !lines[i].isTotal
    ensures lines[i].product in LineProducts(lines)
  {
    if i < |lines| - 1 {
      LineHasProduct(lines[..|lines| - 1], i);
    }
  }

  lemma TrueLineAdded(lots: seq<Lot>, lines: seq<Line>, line: Line)
    requires AreTrueLines(lots, lines)
    requires !line.isTotal ==> line.product !in LineProducts(lines) && Matches(lots, line)
    ensures AreTrueLines(lots, lines + [line])
  {
    forall i | 0 <= i < |lines| && !lines[i].isTotal && !line.isTotal ensures lines[i].product != line.product {
      LineHasProduct(lines, i);
    }
  }

  lemma LinesGrow(lines: seq<Line>, line: Line)
    ensures LineProducts(lines + [line]) == LineProducts(lines) + if line.isTotal then {} else {line.product}
    ensures SummariesOf(lines + [line]) ==
            SummariesOf(lines) + if line.isTotal then [] else [Summary(line.product, line.count, line.kg)]
    ensures TotalsOf(lines + [line]) == TotalsOf(lines) + if line.isTotal then [(line.count, line.kg)] else []
  {
    assert (lines + [line])[..|lines|] == lines;
  }

  function SummaryOf(line: Line): Option<Summary> {
    if line.isTotal then None else Some(Summary(line.product, line.count, line.kg))
  }

  function TotalOf(line: Line): Option<(nat, real)> {
    if line.isTotal then Some((line.count, line.kg)) else None
  }

  lemma {:induction false} SummaryPositions(lines: seq<Line>) returns (at: seq<nat>)
    ensures AreValues(EachOf(lines, SummaryOf), SummariesOf(lines), at)
  {
    at := [];
    if lines != [] {
      var init, last := lines[..|lines| - 1], SummaryOf(lines[|lines| - 1]);
      at := SummaryPositions(init);
      EachGoesOn(lines, SummaryOf);
      assert SummariesOf(lines) == if last.Some? then SummariesOf(init) + [last.value] else SummariesOf(init);
      at := ValuesGoOn(EachOf(init, SummaryOf), SummariesOf(init), at, last);
    }
  }

  lemma {:induction false} TotalPositions(lines: seq<Line>) returns (at: seq<nat>)
    ensures AreValues(EachOf(lines, TotalOf), TotalsOf(lines), at)
  {
    at := [];
    if lines != [] {
      var init, last := lines[..|lines| - 1], TotalOf(lines[|lines| - 1]);
      at := TotalPositions(init);
      EachGoesOn(lines, TotalOf);
      assert TotalsOf(lines) == if last.Some? then TotalsOf(init) + [last.value] else TotalsOf(init);
      at := ValuesGoOn(EachOf(init, TotalOf), TotalsOf(init), at, last);
    }
  }

  /** The summaries are the product lines in order, each with its own figures. */
  lemma SummariesAreLines(lines: seq<Line>, summaries: seq<Summary>) returns (at: seq<nat>)
    requires summaries == SummariesOf(lines)
    ensures |at| == |summaries| && forall i, j :: 0 <= i < j < |at| ==> at[i] < at[j]
    ensures forall i :: 0 <= i < |at| ==>
      && at[i] < |lines| && !lines[at[i]].isTotal && summaries[i].product == lines[at[i]].product
      && summaries[i].count == lines[at[i]].count && summaries[i].kg == lines[at[i]].kg
    ensures forall k: nat :: k < |lines| && !lines[k].isTotal ==> IsAmong(at, k)
  {
    at := SummaryPositions(lines);
    forall i | 0 <= i < |at| ensures at[i] < |lines| && SummaryOf(lines[at[i]]) == Some(summaries[i]) {
      assert EachOf(lines, SummaryOf)[at[i]] == SummaryOf(lines[at[i]]);
    }
    forall k: nat | k < |lines| && !lines[k].isTotal ensures IsAmong(at, k) {
      assert EachOf(lines, SummaryOf)[k] == SummaryOf(lines[k]);
    }
  }

  /** The totals are the other lines. */
  lemma TotalsAreLines(lines: seq<Line>, totals: seq<(nat, real)>) returns (at: seq<nat>)
    requires totals == TotalsOf(lines)
    ensures |at| == |totals| && forall i, j :: 0 <= i < j < |at| ==> at[i] < at[j]
    ensures forall i :: 0 <= i < |at| ==>
      at[i] < |lines| && lines[at[i]].isTotal && totals[i] == (lines[at[i]].count, lines[at[i]].kg)
    ensures forall k: nat :: k < |lines| && lines[k].isTotal ==> IsAmong(at, k)
  {
    at := TotalPositions(lines);
    forall i | 0 <= i < |at| ensures at[i] < |lines| && TotalOf(lines[at[i]]) == Some(totals[i]) {
      assert EachOf(lines, TotalOf)[at[i]] == TotalOf(lines[at[i]]);
    }
    forall k: nat | k < |lines| && lines[k].isTotal ensures IsAmong(at, k) {
      assert EachOf(lines, TotalOf)[k] == TotalOf(lines[k]);
    }
  }

  datatype Recap = Recap(summaries: seq<Summary>, seen: set<Product>, total: Option<(nat, real)>)

  /** What the loop holds when these lines were read. */
  ghost predicate IsRecapOf(lines: seq<Line>, recap: Recap) {
    && recap.summaries == SummariesOf(lines) && recap.seen == LineProducts(lines)
    && TotalsOf(lines) == if recap.total.Some? then [recap.total.value] else []
  }

  /** One line of the recap loop. */
  method EnterLine(ghost lots: seq<Lot>, ghost lines: seq<Line>, line: Line, recap: Recap, tallies: Tallies)
    returns (result: Result<Recap, Defect>)
    requires AreTallies(lots, |lots|, tallies) && AreTrueLines(lots, lines) && IsRecapOf(lines, recap)
    ensures result.Ok? ==> AreTrueLines(lots, lines + [line]) && IsRecapOf(lines + [line], result.value)
    ensures result.Err? ==> HasRecapDefect(lots, lines + [line], result.error)
  {
    LinesGrow(lines, line);
    if line.isTotal {
      if recap.total.Some? {
        return Err(DuplicateTotal);
      }
      TrueLineAdded(lots, lines, line);
      return Ok(recap.(total := Some((line.count, line.kg))));
    }
    if line.product in recap.seen {
      ghost var i := ProductHasLine(lines, line.product);
      assert (lines + [line])[i] == lines[i] && (lines + [line])[|lines|] == line;
      return Err(DuplicateProduct);
    }
    var actual := Tally(tallies, line.product);
    TallyIs(lots, |lots|, tallies, line.product);
    if line.count != actual.0 || !Close(line.kg, actual.1) {
      assert !Matches(lots, (lines + [line])[|lines|]);
      return Err(ProductMismatch);
    }
    TrueLineAdded(lots, lines, line);
    result := Ok(Recap(
      recap.summaries + [Summary(line.product, line.count, line.kg)], recap.seen + {line.product}, recap.total));
  }

  /** The recap is refused for a row that cannot be read, or for what the rows up to some row say. */
  ghost predicate IsRefused(rows: seq<Cells>, lots: seq<Lot>, defect: Defect) {
    || (exists i :: 0 <= i < |rows| && HasLineDefect(rows[i], defect))
    || (exists n: nat :: n <= |rows| && AreReadable(rows, n) && HasRecapDefect(lots, LinesOf(rows, n), defect))
  }

  lemma OneMoreLine(rows: seq<Cells>, n: nat)
    requires n < |rows| && AreReadable(rows, n) && ReadLine(rows[n]).Ok?
    ensures AreReadable(rows, n + 1) && LinesOf(rows, n + 1) == LinesOf(rows, n) + [ReadLine(rows[n]).value]
  {
  }

  method ReadRecap(rows: seq<Cells>, tallies: Tallies, ghost lots: seq<Lot>) returns (result: Result<Recap, Defect>)
    requires AreTallies(lots, |lots|, tallies)
    ensures result.Ok? ==>
              && AreReadable(rows, |rows|) && AreTrueLines(lots, LinesOf(rows, |rows|))
              && IsRecapOf(LinesOf(rows, |rows|), result.value)
    ensures result.Err? ==> IsRefused(rows, lots, result.error)
  {
    var recap := Recap([], {}, None);
    for i := 0 to |rows|
      invariant AreReadable(rows, i)
      invariant AreTrueLines(lots, LinesOf(rows, i)) && IsRecapOf(LinesOf(rows, i), recap)
    {
      var line := ReadLine(rows[i]);
      if line.Err? {
        return Err(line.error);
      }
      OneMoreLine(rows, i);
      var entered := EnterLine(lots, LinesOf(rows, i), line.value, recap, tallies);
      if entered.Err? {
        return Err(entered.error);
      }
      recap := entered.value;
    }
    result := Ok(recap);
  }

  /** `products.values().map(..).sum()`, in whatever order. */
  method SumTallies(tallies: Tallies, ghost lots: seq<Lot>) returns (kg: real)
    requires AreTallies(lots, |lots|, tallies)
    ensures kg == TotalKg(lots, |lots|)
  {
    var rest := tallies.Keys;
    ghost var done: set<Product> := {};
    kg := 0.0;
    NoProducts(lots, |lots|);
    while rest != {}
      invariant rest + done == tallies.Keys && rest * done == {}
      invariant kg == KgWithin(lots, |lots|, done)
      decreases |rest|
    {
      var p :| p in rest;
      OneMoreProduct(lots, |lots|, done, p);
      kg := kg + tallies[p].1;
      rest, done := rest - {p}, done + {p};
    }
    AllProducts(lots, |lots|, done);
  }

  // ---------- the validator ----------

  function LotsOf(rows: seq<Cells>): (lots: seq<Lot>)
    requires forall i :: 0 <= i < |rows| ==> |rows[i]| == 6 && Weight(rows[i][3]).Some?
    ensures |lots| == |rows| && forall i :: 0 <= i < |rows| ==> lots[i] == LotOf(rows[i])
  {
    seq(|rows|, i requires 0 <= i < |rows| && |rows[i]| == 6 && Weight(rows[i][3]).Some? => LotOf(rows[i]))
  }

  /** The manifest is accepted for these bags: as many as expected, and a recap that is true of them. */
  ghost predicate Accepts(
    rows: seq<Cells>, recap: Option<seq<Cells>>, expected: nat, normalise: string -> Option<string>)
  {
    && GoodBagRows(rows, normalise) && |rows| == expected
    && recap.Some? && AreReadable(recap.value, |recap.value|)
    && IsTrueRecap(LotsOf(rows), LinesOf(recap.value, |recap.value|))
  }

  /** What is wrong with a manifest whose bag rows are good and as many as expected. */
  ghost predicate HasTotalsDefect(lots: seq<Lot>, recap: seq<Cells>, defect: Defect) {
    && AreReadable(recap, |recap|)
    && var lines := LinesOf(recap, |recap|);
       match defect
       case MissingProduct => !(Products(lots, |lots|) <= LineProducts(lines))
       case MissingTotal => TotalsOf(lines) == []
       case TotalMismatch =>
         |TotalsOf(lines)| == 1
         && (TotalsOf(lines)[0].0 != |lots| || !Close(TotalsOf(lines)[0].1, TotalKg(lots, |lots|)))
       case _ => false
  }

  ghost predicate HasDefect(
    rows: seq<Cells>, recap: Option<seq<Cells>>, expected: nat, normalise: string -> Option<string>, defect: Defect)
  {
    || HasBagDefect(rows, normalise, defect)
    || (defect == UnexpectedBagCount && |rows| != expected)
    || (defect == MissingRecap && recap.None?)
    || (GoodBagRows(rows, normalise) && recap.Some?
          && (IsRefused(recap.value, LotsOf(rows), defect) || HasTotalsDefect(LotsOf(rows), recap.value, defect)))
  }

  lemma {:induction false} TotalsOfPrefix(lines: seq<Line>, n: nat)
    requires n <= |lines|
    ensures |TotalsOf(lines[..n])| <= |TotalsOf(lines)|
  {
    if n < |lines| {
      TotalsOfPrefix(lines[..|lines| - 1], n);
      assert lines[..|lines| - 1][..n] == lines[..n];
    } else {
      assert lines[..n] == lines;
    }
  }

  lemma DefectOfPrefix(lots: seq<Lot>, lines: seq<Line>, n: nat, defect: Defect)
    requires n <= |lines| && HasRecapDefect(lots, lines[..n], defect)
    ensures !IsTrueRecap(lots, lines)
  {
    TotalsOfPrefix(lines, n);
    assert forall i :: 0 <= i < n ==> lines[..n][i] == lines[i];
  }

  lemma ReadableHasNoDefect(row: Cells, defect: Defect)
    requires ReadLine(row).Ok?
    ensures !HasLineDefect(row, defect)
  {
  }

  lemma FirstLines(rows: seq<Cells>, n: nat)
    requires n <= |rows| && AreReadable(rows, |rows|) && AreReadable(rows, n)
    ensures LinesOf(rows, n) == LinesOf(rows, |rows|)[..n]
  {
    var some, all := LinesOf(rows, n), LinesOf(rows, |rows|);
    forall i | 0 <= i < n ensures some[i] == all[i] {
      assert ReadLine(rows[i]) == Ok(some[i]);
    }
  }

  lemma RefusedIsNotTrue(rows: seq<Cells>, lots: seq<Lot>, defect: Defect)
    requires IsRefused(rows, lots, defect) && AreReadable(rows, |rows|)
    ensures !IsTrueRecap(lots, LinesOf(rows, |rows|))
  {
    if i :| 0 <= i < |rows| && HasLineDefect(rows[i], defect) {
      ReadableHasNoDefect(rows[i], defect);
    } else {
      var n: nat :| n <= |rows| && AreReadable(rows, n) && HasRecapDefect(lots, LinesOf(rows, n), defect);
      FirstLines(rows, n);
      DefectOfPrefix(lots, LinesOf(rows, |rows|), n, defect);
    }
  }

  /** No manifest with a defect is acceptable. */
  lemma DefectsAreRefused(
    rows: seq<Cells>, recap: Option<seq<Cells>>, expected: nat, normalise: string -> Option<string>, defect: Defect)
    requires HasDefect(rows, recap, expected, normalise, defect)
    ensures !Accepts(rows, recap, expected, normalise)
  {
    if HasBagDefect(rows, normalise, defect) {
      DefectIsBad(rows, normalise, defect);
    } else if Accepts(rows, recap, expected, normalise) && IsRefused(recap.value, LotsOf(rows), defect) {
      RefusedIsNotTrue(recap.value, LotsOf(rows), defect);
    }
  }

  /** The checks after the two tables were read. */
  method CheckTotals(recap: Recap, tallies: Tallies, count: nat, ghost lots: seq<Lot>, ghost lines: seq<Line>)
    returns (result: Result<(nat, real), Defect>)
    requires AreTallies(lots, |lots|, tallies) && count == |lots|
    requires AreTrueLines(lots, lines) && IsRecapOf(lines, recap)
    ensures result.Ok? ==> IsTrueRecap(lots, lines) && TotalsOf(lines) == [result.value]
    ensures result.Err? ==>
              match result.error
              case MissingProduct => !(Products(lots, |lots|) <= LineProducts(lines))
              case MissingTotal => TotalsOf(lines) == []
              case TotalMismatch =>
                |TotalsOf(lines)| == 1
                && (TotalsOf(lines)[0].0 != |lots| || !Close(TotalsOf(lines)[0].1, TotalKg(lots, |lots|)))
              case _ => false
  {
    if exists p :: p in tallies && p !in recap.seen {
      return Err(MissingProduct);
    }
    if recap.total.None? {
      return Err(MissingTotal);
    }
    var kg := SumTallies(tallies, lots);
    if recap.total.value.0 != count || !Close(recap.total.value.1, kg) {
      return Err(TotalMismatch);
    }
    result := Ok(recap.total.value);
  }

  /** The row, recap and total checks of `parse_manifest_print_html`. */
  method ValidateManifest(
    rows: seq<Cells>, recap: Option<seq<Cells>>, expected: nat, normalise: string -> Option<string>)
    returns (result: Result<Manifest, Defect>)
    ensures result.Ok? <==> Accepts(rows, recap, expected, normalise)
    ensures result.Ok? ==>
              && |result.value.items| == |rows|
              && forall i :: 0 <= i < |rows| ==>
                   var item, row := result.value.items[i], rows[i];
                   && |row| == 6 && normalise(row[1]) == Some(item.bagId) && item.weight == row[3]
                   && item.no == Optional(row[0]) && item.product == Optional(row[2])
                   && item.origin == Optional(row[4]) && item.destination == Optional(row[5])
                   && LotsOf(rows)[i].product == item.product && Weight(row[3]) == Some(LotsOf(rows)[i].kg)
    ensures result.Ok? ==>
              var lines := LinesOf(recap.value, |recap.value|);
              && AreItemsOf(rows, |rows|, normalise, result.value.items, LotsOf(rows))
              && result.value.recap == SummariesOf(lines)
              && TotalsOf(lines) == [(result.value.count, result.value.kg)]
    ensures result.Err? ==> HasDefect(rows, recap, expected, normalise, result.error)
  {
    var read, lots := ReadBagRows(rows, normalise);
    if read.Err? {
      DefectsAreRefused(rows, recap, expected, normalise, read.error);
      return Err(read.error);
    }
    var items, tallies := read.value.0, read.value.1;
    assert lots == LotsOf(rows);
    if |items| != expected {
      return Err(UnexpectedBagCount);
    }
    if recap.None? {
      return Err(MissingRecap);
    }
    result := CheckRecap(rows, recap.value, expected, normalise, items, tallies, lots);
  }

  method CheckRecap(
    ghost rows: seq<Cells>, recap: seq<Cells>, ghost expected: nat, ghost normalise: string -> Option<string>,
    items: seq<Item>, tallies: Tallies, ghost lots: seq<Lot>)
    returns (result: Result<Manifest, Defect>)
    requires GoodBagRows(rows, normalise) && |rows| == expected == |items|
    requires lots == LotsOf(rows) && AreTallies(lots, |lots|, tallies)
    ensures result.Ok? <==> Accepts(rows, Some(recap), expected, normalise)
    ensures result.Ok? ==>
              var lines := LinesOf(recap, |recap|);
              && result.value.items == items && result.value.recap == SummariesOf(lines)
              && TotalsOf(lines) == [(result.value.count, result.value.kg)]
    ensures result.Err? ==> HasDefect(rows, Some(recap), expected, normalise, result.error)
  {
    var read := ReadRecap(recap, tallies, lots);
    if read.Err? {
      DefectsAreRefused(rows, Some(recap), expected, normalise, read.error);
      return Err(read.error);
    }
    var total := CheckTotals(read.value, tallies, |items|, lots, LinesOf(recap, |recap|));
    if total.Err? {
      assert HasTotalsDefect(lots, recap, total.error);
      DefectsAreRefused(rows, Some(recap), expected, normalise, total.error);
      return Err(total.error);
    }
    result := Ok(Manifest(items, total.value.0, total.value.1, read.value.summaries));
  }

  // ---------- conservation ----------

  function CountsOf(recap: seq<Summary>): nat {
    if recap == [] then 0 else CountsOf(recap[..|recap| - 1]) + recap[|recap| - 1].count
  }

  function KgsOf(recap: seq<Summary>): real {
    if recap == [] then 0.0 else KgsOf(recap[..|recap| - 1]) + recap[|recap| - 1].kg
  }

  lemma {:induction false} LinesCountTheirProducts(lots: seq<Lot>, lines: seq<Line>)
    requires AreTrueLines(lots, lines)
    ensures CountsOf(SummariesOf(lines)) == CountWithin(lots, |lots|, LineProducts(lines))
    ensures -TOLERANCE * |SummariesOf(lines)| as real
         <= KgsOf(SummariesOf(lines)) - KgWithin(lots, |lots|, LineProducts(lines))
         <= TOLERANCE * |SummariesOf(lines)| as real
  {
    if lines == [] {
      NoProducts(lots, |lots|);
    } else {
      var init, last := lines[..|lines| - 1], lines[|lines| - 1];
      assert AreTrueLines(lots, init);
      LinesCountTheirProducts(lots, init);
      LinesGrow(init, last);
      assert init + [last] == lines;
      if !last.isTotal {
        if last.product in LineProducts(init) {
          var i := ProductHasLine(init, last.product);
        } else {
          OneMoreProduct(lots, |lots|, LineProducts(init), last.product);
          var before := SummariesOf(init);
          assert SummariesOf(lines)[..|before|] == before;
        }
      } else {
        assert LineProducts(init) + {} == LineProducts(init);
        assert SummariesOf(init) + [] == SummariesOf(init);
      }
    }
  }

  /** In every accepted manifest the recap's counts add up to the number of bags, which is the declared
      total and the expected count; its weights add up to the bags' weight, within the tolerance of its
      lines; and so does the declared total weight, within one. */
  lemma AcceptedConserves(
    rows: seq<Cells>, recap: Option<seq<Cells>>, expected: nat, normalise: string -> Option<string>)
    requires Accepts(rows, recap, expected, normalise)
    ensures
      var lots, lines := LotsOf(rows), LinesOf(recap.value, |recap.value|);
      var summaries, total := SummariesOf(lines), TotalsOf(lines)[0];
      && CountsOf(summaries) == |rows| == total.0 == expected <= MAX_BAGS
      && -TOLERANCE * |summaries| as real <= KgsOf(summaries) - TotalKg(lots, |lots|) <= TOLERANCE * |summaries| as real
      && Close(total.1, TotalKg(lots, |lots|))
  {
    var lots, lines := LotsOf(rows), LinesOf(recap.value, |recap.value|);
    LinesCountTheirProducts(lots, lines);
    AllProducts(lots, |lots|, LineProducts(lines));
  }
}
