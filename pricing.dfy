/** The tier data of an estimate and its derived fields: the fabrication
    subtotal, the logistics subtotal and the grand total, which
    `recalcTotals` rebuilds from the line items and the logistics amounts,
    plus the tier-level effect of each manual edit. */
module Pricing {
  import opened Wrappers
  import opened Numbers

  /** One fabrication line `{item, qty, unit_cost, subtotal}`; `qty` is free
      text, the two amounts are whatever `Number` makes of the JSON value. */
  datatype LineItem = LineItem(item: string, qty: string, unitCost: Numeric, subtotal: Numeric)

  /** One property of a tier's `logistics` object: a cost category and its
      amount. The object is a sequence in property order. */
  datatype LogEntry = LogEntry(key: string, amount: Numeric)

  /** One pricing tier. `fabricationItems` and `logistics` may be absent in
      the generated JSON; the last three fields are the derived ones. */
  datatype Tier = Tier(
    labelText: string,
    description: string,
    notes: string,
    fabricationItems: Option<seq<LineItem>>,
    logistics: Option<seq<LogEntry>>,
    fabricationSubtotal: Numeric,
    logisticsSubtotal: Numeric,
    grandTotal: Numeric)

  /** The line appended by "add line item". */
  const DefaultItem := LineItem("New Line Item", "1", Finite(0.0), Finite(0.0))

  /** `tier.fabrication_items || []` */
  function Items(t: Tier): seq<LineItem>
  {
    if t.fabricationItems.Some? then t.fabricationItems.value else []
  }

  /** `Object.values(tier.logistics || {})`, with keys. */
  function Entries(t: Tier): seq<LogEntry>
  {
    if t.logistics.Some? then t.logistics.value else []
  }

  /** Sum of the line subtotals, each coerced with `Number(x) || 0`. */
  function ItemsSum(items: seq<LineItem>): real
  {
    if items == [] then 0.0 else OrZero(items[0].subtotal) + ItemsSum(items[1..])
  }

  /** Sum of the logistics amounts, each coerced with `Number(x) || 0`. */
  function LogisticsSum(entries: seq<LogEntry>): real
  {
    if entries == [] then 0.0 else OrZero(entries[0].amount) + LogisticsSum(entries[1..])
  }

  /** The pricing invariant: every derived field agrees with the leaves. */
  predicate Consistent(t: Tier)
  {
    && t.fabricationSubtotal == Finite(ItemsSum(Items(t)))
    && t.logisticsSubtotal == Finite(LogisticsSum(Entries(t)))
    && t.grandTotal == Finite(t.fabricationSubtotal.value + t.logisticsSubtotal.value)
  }

  /** `a` and `b` agree on everything but the three derived fields. */
  predicate SameLeaves(a: Tier, b: Tier)
  {
    a.(fabricationSubtotal := NaN, logisticsSubtotal := NaN, grandTotal := NaN)
      == b.(fabricationSubtotal := NaN, logisticsSubtotal := NaN, grandTotal := NaN)
  }

  /** `recalcTotals(tier)`: keeps every field of `tier` and overwrites the
      three derived ones from the items and the logistics amounts. */
  function RecalcTotals(t: Tier): (r: Tier)
    ensures Consistent(r)
    ensures SameLeaves(r, t)
  {
    var fabrication := ItemsSum(Items(t));
    var logistics := LogisticsSum(Entries(t));
    t.(fabricationSubtotal := Finite(fabrication),
       logisticsSubtotal := Finite(logistics),
       grandTotal := Finite(fabrication + logistics))
  }

  /** A tier is a fixed point of recalculation exactly when it is
      consistent; in particular recalculating twice is recalculating once. */
  lemma RecalcFixedPoints(t: Tier)
    ensures RecalcTotals(t) == t <==> Consistent(t)
    ensures RecalcTotals(RecalcTotals(t)) == RecalcTotals(t)
  {
  }

  /** No items and no logistics (absent or empty) give 0 / 0 / 0. */
  lemma RecalcOfEmptyTier(t: Tier)
    requires Items(t) == [] && Entries(t) == []
    ensures RecalcTotals(t).fabricationSubtotal == Finite(0.0)
    ensures RecalcTotals(t).logisticsSubtotal == Finite(0.0)
    ensures RecalcTotals(t).grandTotal == Finite(0.0)
  {
  }

  lemma {:induction false} ItemsSumAppend(a: seq<LineItem>, b: seq<LineItem>)
    ensures ItemsSum(a + b) == ItemsSum(a) + ItemsSum(b)
  {
    if a == [] {
      assert a + b == b;
    } else {
      assert (a + b)[1..] == a[1..] + b;
      ItemsSumAppend(a[1..], b);
    }
  }

  /** Replacing one line changes the sum by exactly that line's difference. */
  lemma ItemsSumUpdate(items: seq<LineItem>, idx: nat, item: LineItem)
    requires idx < |items|
    ensures ItemsSum(items[idx := item])
      == ItemsSum(items) - OrZero(items[idx].subtotal) + OrZero(item.subtotal)
  {
    var pre, post, x := items[..idx], items[idx + 1..], items[idx];
    assert items == pre + [x] + post;
    assert items[idx := item] == pre + [item] + post;
    ItemsSumAppend(pre + [x], post);
    ItemsSumAppend(pre + [item], post);
    ItemsSumAppend(pre, [x]);
    ItemsSumAppend(pre, [item]);
    ItemsSumSingle(x);
    ItemsSumSingle(item);
  }

  /** Removing one line takes exactly that line's amount off the sum. */
  lemma ItemsSumRemove(items: seq<LineItem>, idx: nat)
    requires idx < |items|
    ensures ItemsSum(items[..idx] + items[idx + 1..]) == ItemsSum(items) - OrZero(items[idx].subtotal)
  {
    var pre, post, x := items[..idx], items[idx + 1..], items[idx];
    SplitAt(items, idx);
    calc {
      ItemsSum(items);
    == { ItemsSumAppend(pre + [x], post); }
      ItemsSum(pre + [x]) + ItemsSum(post);
    == { ItemsSumAppend(pre, [x]); ItemsSumSingle(x); }
      ItemsSum(pre) + OrZero(x.subtotal) + ItemsSum(post);
    == { ItemsSumAppend(pre, post); }
      ItemsSum(pre + post) + OrZero(x.subtotal);
    }
  }

  lemma SplitAt(items: seq<LineItem>, idx: nat)
    requires idx < |items|
    ensures items == items[..idx] + [items[idx]] + items[idx + 1..]
  {
  }

  lemma ItemsSumSingle(x: LineItem)
    ensures ItemsSum([x]) == OrZero(x.subtotal)
  {
    assert [x][1..] == [];
  }

  /** The amount stored under `key`, if the object has that property. */
  function Lookup(entries: seq<LogEntry>, key: string): Option<Numeric>
  {
    if entries == [] then None
    else if entries[0].key == key then Some(entries[0].amount)
    else Lookup(entries[1..], key)
  }

  /** An object has each property once. */
  predicate UniqueKeys(entries: seq<LogEntry>)
  {
    forall i, j :: 0 <= i < j < |entries| ==> entries[i].key != entries[j].key
  }

  /** `logistics[key] = v`: an existing property keeps its place and gets
      the new amount; a new property is added at the end. */
  function SetEntry(entries: seq<LogEntry>, key: string, v: Numeric): (r: seq<LogEntry>)
    ensures Lookup(r, key) == Some(v)
    ensures forall k :: k != key ==> Lookup(r, k) == Lookup(entries, k)
    ensures Lookup(entries, key).Some? ==>
              |r| == |entries| && forall i :: 0 <= i < |r| ==> r[i].key == entries[i].key
    ensures Lookup(entries, key).None? ==> r == entries + [LogEntry(key, v)]
    ensures UniqueKeys(entries) ==> UniqueKeys(r)
  {
    if entries == [] then [LogEntry(key, v)]
    else if entries[0].key == key then [LogEntry(key, v)] + entries[1..]
    else [entries[0]] + SetEntry(entries[1..], key, v)
  }

  /** The amount of a category that is absent, or not a number, counts 0. */
  function AmountOf(entries: seq<LogEntry>, key: string): real
  {
    match Lookup(entries, key)
    case None => 0.0
    case Some(n) => OrZero(n)
  }

  /** Setting one category changes the logistics sum by exactly that
      category's difference. */
  lemma {:induction false} LogisticsSumSet(entries: seq<LogEntry>, key: string, v: Numeric)
    requires UniqueKeys(entries)
    ensures LogisticsSum(SetEntry(entries, key, v))
      == LogisticsSum(entries) - AmountOf(entries, key) + OrZero(v)
  {
    if entries != [] && entries[0].key != key {
      var r := SetEntry(entries, key, v);
      assert r[1..] == SetEntry(entries[1..], key, v);
      assert UniqueKeys(entries[1..]);
      LogisticsSumSet(entries[1..], key, v);
    }
  }

  /** `updateFabItem` on one tier: replace line `idx`, then recalculate. */
  function ReplaceItem(t: Tier, idx: nat, item: LineItem): Tier
    requires t.fabricationItems.Some? && idx < |t.fabricationItems.value|
  {
    RecalcTotals(t.(fabricationItems := Some(t.fabricationItems.value[idx := item])))
  }

  /** `deleteFabItem` on one tier: `splice(idx, 1)`, then recalculate. */
  function RemoveItem(t: Tier, idx: nat): Tier
    requires t.fabricationItems.Some? && idx < |t.fabricationItems.value|
  {
    var items := t.fabricationItems.value;
    RecalcTotals(t.(fabricationItems := Some(items[..idx] + items[idx + 1..])))
  }

  /** `addFabItem` on one tier: push the default line, no recalculation. */
  function AppendDefaultItem(t: Tier): Tier
    requires t.fabricationItems.Some?
  {
    t.(fabricationItems := Some(t.fabricationItems.value + [DefaultItem]))
  }

  /** `updateLogistics` on one tier: set one category, then recalculate. */
  function SetLogistic(t: Tier, key: string, v: Numeric): Tier
    requires t.logistics.Some?
  {
    RecalcTotals(t.(logistics := Some(SetEntry(t.logistics.value, key, v))))
  }

  /** Replacing a line touches only that line, and the new subtotals move by
      exactly the difference between the old and the new line. */
  lemma ReplaceItemEffect(t: Tier, idx: nat, item: LineItem)
    requires t.fabricationItems.Some? && idx < |t.fabricationItems.value|
    requires Consistent(t)
    ensures var r := ReplaceItem(t, idx, item);
      && Consistent(r)
      && Items(r) == Items(t)[idx := item]
      && Entries(r) == Entries(t)
      && SameLeaves(r, t.(fabricationItems := Some(Items(t)[idx := item])))
      && r.fabricationSubtotal.value
         == t.fabricationSubtotal.value - OrZero(Items(t)[idx].subtotal) + OrZero(item.subtotal)
      && r.grandTotal.value
         == t.grandTotal.value - OrZero(Items(t)[idx].subtotal) + OrZero(item.subtotal)
  {
    ItemsSumUpdate(Items(t), idx, item);
  }

  /** Deleting a line removes exactly that line, and its amount leaves the
      subtotal and the grand total. */
  lemma RemoveItemEffect(t: Tier, idx: nat)
    requires t.fabricationItems.Some? && idx < |t.fabricationItems.value|
    requires Consistent(t)
    ensures var r := RemoveItem(t, idx);
      && Consistent(r)
      && Items(r) == Items(t)[..idx] + Items(t)[idx + 1..]
      && |Items(r)| == |Items(t)| - 1
      && Entries(r) == Entries(t)
      && r.fabricationSubtotal.value == t.fabricationSubtotal.value - OrZero(Items(t)[idx].subtotal)
      && r.grandTotal.value == t.grandTotal.value - OrZero(Items(t)[idx].subtotal)
  {
    ItemsSumRemove(Items(t), idx);
  }

  /** Adding the default line leaves every total as it was, and a
      consistent tier stays consistent because the new line is worth 0. */
  lemma AppendDefaultEffect(t: Tier)
    requires t.fabricationItems.Some?
    ensures var r := AppendDefaultItem(t);
      && Items(r) == Items(t) + [DefaultItem]
      && r.fabricationSubtotal == t.fabricationSubtotal
      && r.logisticsSubtotal == t.logisticsSubtotal
      && r.grandTotal == t.grandTotal
      && (Consistent(t) ==> Consistent(r))
  {
    ItemsSumAppend(Items(t), [DefaultItem]);
    assert [DefaultItem][..0] == [];
  }

  /** Setting a category changes only that category, and the logistics
      subtotal and grand total move by exactly its difference. */
  lemma SetLogisticEffect(t: Tier, key: string, v: Numeric)
    requires t.logistics.Some? && UniqueKeys(t.logistics.value)
    requires Consistent(t)
    ensures var r := SetLogistic(t, key, v);
      && Consistent(r)
      && Items(r) == Items(t)
      && Lookup(Entries(r), key) == Some(v)
      && (forall k :: k != key ==> Lookup(Entries(r), k) == Lookup(Entries(t), k))
      && UniqueKeys(Entries(r))
      && r.logisticsSubtotal.value
         == t.logisticsSubtotal.value - AmountOf(Entries(t), key) + OrZero(v)
      && r.grandTotal.value
         == t.grandTotal.value - AmountOf(Entries(t), key) + OrZero(v)
  {
    LogisticsSumSet(Entries(t), key, v);
  }

  /** `EditableLineRow.save`: the saved subtotal is `unit_cost` times the
      parsed quantity, an unparseable or zero quantity counting as 1; only
      when that product is NaN (a non-numeric unit cost) is the typed
      subtotal kept. */
  function SaveLineItem(local: LineItem): LineItem
  {
    SaveScaled(local, OrOne(ParseFloat(local.qty)))
  }

  /** The save rule for a quantity already read as `factor`. */
  function SaveScaled(local: LineItem, factor: real): LineItem
  {
    var product := if local.unitCost.Finite?
      then Finite(local.unitCost.value * factor)
      else NaN;
    local.(subtotal := if product.NaN? then local.subtotal else product)
  }

  /** Saving a row changes only its subtotal; a numeric unit cost always
      wins over the typed subtotal, a quantity that starts with a run of
      digits multiplies the unit cost by that whole number ("0" counting as
      one unit), and a quantity without digits counts as one unit. */
  lemma SaveLineItemRule(local: LineItem)
    ensures var r := SaveLineItem(local);
      && r.(subtotal := local.subtotal) == local
      && (local.unitCost.NaN? ==> r.subtotal == local.subtotal)
      && (local.unitCost.Finite? ==> r.subtotal.Finite?)
      && (forall d: string, rest: string ::
            local.unitCost.Finite? && local.qty == d + rest && d != [] && AllDigits(d)
            && EndsLiteral(rest)
            ==> r.subtotal == WholeUnits(local.unitCost, IntegerValue(d)))
      && (local.unitCost.Finite? && (forall i :: 0 <= i < |local.qty| ==> !IsDigit(local.qty[i]))
          ==> r.subtotal == local.unitCost)
  {
    forall d: string, rest: string |
      local.unitCost.Finite? && local.qty == d + rest && d != [] && AllDigits(d)
      && EndsLiteral(rest)
      ensures SaveLineItem(local).subtotal == WholeUnits(local.unitCost, IntegerValue(d))
    {
      SaveWholeQuantity(local, d, rest);
    }
    if local.unitCost.Finite? && (forall i :: 0 <= i < |local.qty| ==> !IsDigit(local.qty[i])) {
      ParseFloatNoDigit(local.qty);
    }
  }

  /** The unit cost times `n` units, where 0 units count as one. */
  function WholeUnits(unitCost: Numeric, n: nat): Numeric
    requires unitCost.Finite?
  {
    if n == 0 then unitCost else Finite(unitCost.value * n as real)
  }

  /** A quantity that starts with the digit run `d` saves `IntegerValue(d)`
      units. */
  lemma SaveWholeQuantity(local: LineItem, d: string, rest: string)
    requires local.unitCost.Finite? && local.qty == d + rest && d != [] && AllDigits(d)
    requires EndsLiteral(rest)
    ensures SaveLineItem(local).subtotal == WholeUnits(local.unitCost, IntegerValue(d))
  {
    var n := IntegerValue(d);
    assert OrOne(ParseFloat(local.qty)) == if n == 0 then 1.0 else n as real by {
      ParseFloatOfDigits(d, rest);
    }
    SaveWholeUnits(local, n);
  }

  /** A quantity whose factor is `n` units saves `WholeUnits`. */
  lemma SaveWholeUnits(local: LineItem, n: nat)
    requires local.unitCost.Finite?
    requires OrOne(ParseFloat(local.qty)) == if n == 0 then 1.0 else n as real
    ensures SaveLineItem(local).subtotal == WholeUnits(local.unitCost, n)
  {
    SaveUnfolds(local);
    ScaledWhole(local, n);
  }

  lemma SaveUnfolds(local: LineItem)
    ensures SaveLineItem(local) == SaveScaled(local, OrOne(ParseFloat(local.qty)))
  {
  }

  /** The factor for `n` units, 0 counting as one, scales to `WholeUnits`. */
  lemma ScaledWhole(local: LineItem, n: nat)
    requires local.unitCost.Finite?
    ensures SaveScaled(local, if n == 0 then 1.0 else n as real).subtotal
      == WholeUnits(local.unitCost, n)
  {
  }

  /** Adding a line to an empty tier and saving it as "Counter", quantity
      "2", unit cost 600 gives a 1200 line, a 1200 fabrication subtotal and
      a grand total of 1200 plus the logistics. */
  lemma CounterScenario(t: Tier)
    requires t.fabricationItems == Some([])
    ensures var added := AppendDefaultItem(t);
      var typed := Items(added)[0].(item := "Counter", qty := "2", unitCost := Finite(600.0));
      var r := ReplaceItem(added, 0, SaveLineItem(typed));
      && Items(r) == [LineItem("Counter", "2", Finite(600.0), Finite(1200.0))]
      && r.fabricationSubtotal == Finite(1200.0)
      && r.grandTotal == Finite(1200.0 + LogisticsSum(Entries(t)))
  {
    var added := AppendDefaultItem(t);
    assert Items(added) == [DefaultItem];
    var typed := DefaultItem.(item := "Counter", qty := "2", unitCost := Finite(600.0));
    var saved := SaveLineItem(typed);
    assert saved == LineItem("Counter", "2", Finite(600.0), Finite(1200.0)) by {
      QuantityTwo();
    }
    assert Items(added)[0 := saved] == [saved];
    ItemsSumSingle(saved);
    assert Entries(added) == Entries(t);
  }

  /** The quantity "2" reads as 2. */
  lemma QuantityTwo()
    ensures OrOne(ParseFloat("2")) == 2.0
  {
    ParseFloatLeadingInteger(2, "");
    assert Decimal(2) + "" == "2";
  }

  /** Deleting a line and then adding and saving another leaves totals that
      reflect exactly the remaining lines and the new one: nothing of the
      deleted line survives. */
  lemma DeleteThenAddReconciles(t: Tier, idx: nat, item: LineItem)
    requires t.fabricationItems.Some? && idx < |t.fabricationItems.value|
    ensures var removed := RemoveItem(t, idx);
      var added := AppendDefaultItem(removed);
      var r := ReplaceItem(added, |Items(added)| - 1, item);
      && Consistent(r)
      && Items(r) == Items(t)[..idx] + Items(t)[idx + 1..] + [item]
      && r.fabricationSubtotal.value
         == ItemsSum(Items(t)) - OrZero(Items(t)[idx].subtotal) + OrZero(item.subtotal)
  {
    var removed := RemoveItem(t, idx);
    var kept := Items(t)[..idx] + Items(t)[idx + 1..];
    ItemsSumRemove(Items(t), idx);
    var added := AppendDefaultItem(removed);
    assert Items(added) == kept + [DefaultItem];
    assert Items(added)[|kept| := item] == kept + [item];
    ItemsSumAppend(kept, [item]);
    assert [item][..0] == [];
  }
}
