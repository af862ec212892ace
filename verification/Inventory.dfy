/** Stock: what one inventory row holds, how orders move it, and how adjustments set it.
    Quantities are integers; prices are cents. */
module Inventory {
  type Tenant = string
  type Sku = string

  datatype Key = Key(tenant: Tenant, sku: Sku)

  datatype Item = Item(sku: Sku, qty: nat, price: nat)

  /** `availableQty` and `reservedQty` of one row. */
  datatype Level = Level(available: int, reserved: int)

  type Stock = map<Key, Level>

  /** What the items of an order do to a row: reserve on order.created, release on
      order.cancelled, commit on confirmation. */
  datatype Move = Reserve | Release | Commit

  function Moved(level: Level, move: Move, qty: int): Level {
    match move
    case Reserve => Level(level.available - qty, level.reserved + qty)
    case Release => Level(level.available + qty, level.reserved - qty)
    case Commit => Level(level.available, level.reserved - qty)
  }

  /** Quantity an order asks of one SKU. An order may list a SKU more than once. */
  function Demand(items: seq<Item>, sku: Sku): nat {
    if items == [] then 0
    else Demand(items[..|items| - 1], sku) + if items[|items| - 1].sku == sku then items[|items| - 1].qty else 0
  }

  function DemandAt(tenant: Tenant, items: seq<Item>, key: Key): nat {
    if key.tenant == tenant then Demand(items, key.sku) else 0
  }

  /** Sum of price times quantity. */
  function Amount(items: seq<Item>): nat {
    if items == [] then 0 else Amount(items[..|items| - 1]) + items[|items| - 1].price * items[|items| - 1].qty
  }

  predicate NonNegative(stock: Stock) {
    forall key :: key in stock ==> stock[key].available >= 0
  }

  function LevelOf(stock: Stock, key: Key): Level {
    if key in stock then stock[key] else Level(0, 0)
  }

  /** Available plus reserved. */
  function Pieces(stock: Stock, key: Key): int {
    LevelOf(stock, key).available + LevelOf(stock, key).reserved
  }

  predicate HasRows(stock: Stock, tenant: Tenant, items: seq<Item>) {
    forall i :: 0 <= i < |items| ==> Key(tenant, items[i].sku) in stock
  }

  /** The stock after a transaction that moves every item: each row by the order's whole demand. */
  function Shift(stock: Stock, tenant: Tenant, items: seq<Item>, move: Move): (r: Stock)
    ensures r.Keys == stock.Keys
    ensures forall key :: key in stock ==> r[key] == Moved(stock[key], move, DemandAt(tenant, items, key))
  {
    map key | key in stock :: Moved(stock[key], move, DemandAt(tenant, items, key))
  }

  /** The test made before reserving: every item, taken by itself, is covered. */
  predicate Covered(stock: Stock, tenant: Tenant, items: seq<Item>) {
    forall i :: 0 <= i < |items| ==>
      Key(tenant, items[i].sku) in stock && items[i].qty <= stock[Key(tenant, items[i].sku)].available
  }

  /** Rows that do not exist are not asked for, so a shift is exact at every key. */
  lemma {:induction false} ShiftLevels(stock: Stock, tenant: Tenant, items: seq<Item>, move: Move)
    requires HasRows(stock, tenant, items)
    ensures forall key :: LevelOf(Shift(stock, tenant, items, move), key)
                          == Moved(LevelOf(stock, key), move, DemandAt(tenant, items, key))
  {
    forall key | key !in stock
      ensures DemandAt(tenant, items, key) == 0
    {
      if key.tenant == tenant {
        forall i | 0 <= i < |items|
          ensures items[i].sku != key.sku
        {
          assert Key(tenant, items[i].sku) in stock;
        }
        AbsentDemand(items, key.sku);
      }
    }
  }

  /** Moving one more item after the others. */
  lemma {:induction false} ShiftSnoc(stock: Stock, tenant: Tenant, items: seq<Item>, item: Item, move: Move)
    requires Key(tenant, item.sku) in stock
    ensures var key, before := Key(tenant, item.sku), Shift(stock, tenant, items, move);
            Shift(stock, tenant, items + [item], move) == before[key := Moved(before[key], move, item.qty)]
  {
  }

  lemma {:induction false} ShiftNone(stock: Stock, tenant: Tenant, move: Move)
    ensures Shift(stock, tenant, [], move) == stock
  {
  }

  predicate DistinctSkus(items: seq<Item>) {
    forall i, j :: 0 <= i < j < |items| ==> items[i].sku != items[j].sku
  }

  lemma {:induction false} AbsentDemand(items: seq<Item>, sku: Sku)
    requires forall i :: 0 <= i < |items| ==> items[i].sku != sku
    ensures Demand(items, sku) == 0
    decreases |items|
  {
    if items != [] {
      AbsentDemand(items[..|items| - 1], sku);
    }
  }

  /** With distinct SKUs the demand on a listed SKU is that item's quantity. */
  lemma {:induction false} DistinctDemand(items: seq<Item>, i: nat)
    requires DistinctSkus(items) && i < |items|
    ensures Demand(items, items[i].sku) == items[i].qty
    decreases |items|
  {
    var last := |items| - 1;
    if i < last {
      DistinctDemand(items[..last], i);
    } else {
      AbsentDemand(items[..last], items[last].sku);
    }
  }

  /** Every row covers the order's summed demand on it. The test made before reserving is weaker. */
  predicate CoveredInSum(stock: Stock, tenant: Tenant, items: seq<Item>) {
    forall key :: key in stock ==> DemandAt(tenant, items, key) <= stock[key].available
  }

  /** For orders that list each SKU once it is not. */
  lemma {:induction false} CoveredSuffices(stock: Stock, tenant: Tenant, items: seq<Item>)
    requires NonNegative(stock) && DistinctSkus(items) && Covered(stock, tenant, items)
    ensures CoveredInSum(stock, tenant, items)
  {
    forall key | key in stock
      ensures DemandAt(tenant, items, key) <= stock[key].available
    {
      if key.tenant == tenant {
        if i :| 0 <= i < |items| && items[i].sku == key.sku {
          DistinctDemand(items, i);
          assert key == Key(tenant, items[i].sku);
        } else {
          AbsentDemand(items, key.sku);
        }
      }
    }
  }

  // ---------------------------------------------------------------- adjustments

  datatype Kind = IN | OUT | ADJUSTMENT

  datatype Error = BadRequest | NotFound | Conflict | Internal

  /** A row of the adjustment log. `delta` is a history variable: what the adjustment added to
      `availableQty`. */
  datatype Adjustment = Adjustment(tenant: Tenant, sku: Sku, kind: Kind, qty: nat, reason: string, key: string,
          delta: int)

  datatype Adjusted = Done(stock: Stock, entry: Adjustment) | Refused(error: Error)

  /** One adjustment: what the new level is, and when it is refused. */
  function Adjust(stock: Stock, tenant: Tenant, sku: Sku, kind: Kind, qty: nat, reason: string,
          idemKey: string): Adjusted {
    var key := Key(tenant, sku);
    if kind == OUT && key !in stock then Refused(NotFound)
    else if kind == OUT && stock[key].available < qty then Refused(Conflict)
    else
      var level := LevelOf(stock, key);
      var available := match kind
        case IN => level.available + qty
        case OUT => level.available - qty
        case ADJUSTMENT => qty;
      Done(stock[key := Level(available, level.reserved)],
           Adjustment(tenant, sku, kind, qty, reason, idemKey, available - level.available))
  }

  /** What one adjustment makes of the stock: IN adds, OUT takes away, ADJUSTMENT sets, a row that is
      missing counts as zero, and no other row changes. */
  ghost predicate Sets(before: Stock, after: Stock, key: Key, kind: Kind, qty: nat) {
    && after.Keys == before.Keys + {key}
    && (forall other :: other in before && other != key ==> after[other] == before[other])
    && var available, reserved := after[key].available, after[key].reserved;
       && reserved == (if key in before then before[key].reserved else 0)
       && (kind == IN ==> available == (if key in before then before[key].available else 0) + qty)
       && (kind == OUT ==> key in before && available == before[key].available - qty >= 0)
       && (kind == ADJUSTMENT ==> available == qty)
  }

  /** Each kind of adjustment, from any stock: refused only for OUT, with NotFound exactly when the row
      is missing and with Conflict exactly when it holds less than is taken out. */
  lemma {:induction false} Adjusts(stock: Stock, tenant: Tenant, sku: Sku, kind: Kind, qty: nat, reason: string,
          idemKey: string)
    ensures var r, key := Adjust(stock, tenant, sku, kind, qty, reason, idemKey), Key(tenant, sku);
            && (r == Refused(NotFound) <==> kind == OUT && key !in stock)
            && (r == Refused(Conflict) <==> kind == OUT && key in stock && stock[key].available < qty)
            && (r.Refused? ==> r.error in {NotFound, Conflict})
            && (r.Done? ==>
                  && Sets(stock, r.stock, key, kind, qty)
                  && var had := if key in stock then stock[key].available else 0;
                     r.entry == Adjustment(tenant, sku, kind, qty, reason, idemKey, r.stock[key].available - had))
  {
  }

  /** An adjustment moves one row's available quantity by its delta and nothing else. */
  lemma {:induction false} AdjustEffect(stock: Stock, tenant: Tenant, sku: Sku, kind: Kind, qty: nat,
          reason: string, idemKey: string)
    ensures var r := Adjust(stock, tenant, sku, kind, qty, reason, idemKey);
            r.Done? ==>
              && (forall key :: LevelOf(r.stock, key) ==
                    if key == Key(tenant, sku)
                    then Level(LevelOf(stock, key).available + r.entry.delta, LevelOf(stock, key).reserved)
                    else LevelOf(stock, key))
              && (NonNegative(stock) ==> NonNegative(r.stock))
              && stock.Keys <= r.stock.Keys
  {
  }
}
