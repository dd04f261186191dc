/**
 * Quotes and their line items: the item amount computed on save, the quote
 * totals, and the serializer's create and update, which write the items and
 * then recompute the totals. Money is exact (`real`), as `Decimal` is.
 */
module Quotes {
  import opened Wrappers

  /** `(value, label)` pairs of a Django `choices` list. */
  type Choices = seq<(string, string)>

  function ChoiceValues(choices: Choices): (r: seq<string>)
    ensures |r| == |choices|
    ensures forall i :: 0 <= i < |r| ==> r[i] == choices[i].0
  {
    if choices == [] then [] else [choices[0].0] + ChoiceValues(choices[1..])
  }

  /** `Quote.STATUS_CHOICES`, in declaration order. */
  const StatusChoices: Choices :=
    [("Oppurtunity", "Oppurtunity"), ("Scoping", "Scoping"), ("Proposal", "Proposal"), ("Confirmed", "Confirmed")]

  /** `QuoteItem.UNIT_CHOICES`, in declaration order. */
  const UnitChoices: Choices :=
    [("pieces", "Pieces"), ("hours", "Hours"), ("days", "Days"), ("minutes", "Minutes")]

  /** The status a new quote gets when none is given. */
  const DefaultStatus: string := "Oppurtunity"

  /** The unit a new item gets when none is given. */
  const DefaultUnit: string := "pieces"

  /** The default status is the first of the four distinct status choices. */
  lemma DefaultStatusIsFirstChoice()
    ensures DefaultStatus in ChoiceValues(StatusChoices) && DefaultStatus == ChoiceValues(StatusChoices)[0]
    ensures |StatusChoices| == 4
    ensures forall i, j :: 0 <= i < j < |StatusChoices| ==> StatusChoices[i].0 != StatusChoices[j].0
  {
  }

  /** The default unit is the first of the four distinct unit choices. */
  lemma DefaultUnitIsFirstChoice()
    ensures DefaultUnit in ChoiceValues(UnitChoices) && DefaultUnit == ChoiceValues(UnitChoices)[0]
    ensures |UnitChoices| == 4
    ensures forall i, j :: 0 <= i < j < |UnitChoices| ==> UnitChoices[i].0 != UnitChoices[j].0
  {
  }

  const HoursUnit := "hours"

  // ---------------------------------------------------------------------------
  // Line items
  // ---------------------------------------------------------------------------

  /** One validated entry of `items`: the fields without a default are required. */
  datatype ItemData = ItemData(quantity: nat, unit: Option<string>, pricePerUnit: real, cost: Option<real>)

  /** A stored line item, as a value. */
  datatype Line = Line(quantity: nat, unit: string, pricePerUnit: real, cost: real, amount: real)

  /** The line `QuoteItem.objects.create(quote=quote, **data)` stores. */
  function LineOf(d: ItemData): (r: Line)
    ensures r.amount == r.quantity as real * r.pricePerUnit
    ensures r.quantity == d.quantity && r.pricePerUnit == d.pricePerUnit
    ensures r.unit == d.unit.GetOr(DefaultUnit) && r.cost == d.cost.GetOr(0.0)
  {
    Line(d.quantity, d.unit.GetOr(DefaultUnit), d.pricePerUnit, d.cost.GetOr(0.0),
         d.quantity as real * d.pricePerUnit)
  }

  /** The lines stored for a list of item entries, in order. */
  function LinesOf(ds: seq<ItemData>): (r: seq<Line>)
    ensures |r| == |ds| && forall i :: 0 <= i < |ds| ==> r[i] == LineOf(ds[i])
  {
    seq(|ds|, i requires 0 <= i < |ds| => LineOf(ds[i]))
  }

  class QuoteItem {
    var quantity: nat
    var unit: string
    var pricePerUnit: real
    var cost: real
    var amount: real

    function Snapshot(): Line
      reads this
    {
      Line(quantity, unit, pricePerUnit, cost, amount)
    }

    /** `QuoteItem.objects.create(**data)`: the instance with its defaults, then `save()`. */
    constructor (d: ItemData)
      ensures Snapshot() == LineOf(d)
    {
      quantity := d.quantity;
      unit := d.unit.GetOr(DefaultUnit);
      pricePerUnit := d.pricePerUnit;
      cost := d.cost.GetOr(0.0);
      amount := 0.0;
      new;
      Save();
    }

    /** `save()`: the amount is recomputed from quantity and unit price before the row is written. */
    method Save()
      modifies `amount
      ensures amount == quantity as real * pricePerUnit
    {
      amount := quantity as real * pricePerUnit;
    }
  }

  /** The items of a quote as values. */
  function Lines(items: seq<QuoteItem>): (r: seq<Line>)
    reads items
    ensures |r| == |items| && forall i :: 0 <= i < |items| ==> r[i] == items[i].Snapshot()
  {
    seq(|items|, i requires 0 <= i < |items| reads items => items[i].Snapshot())
  }

  // ---------------------------------------------------------------------------
  // Totals
  // ---------------------------------------------------------------------------

  /** `sum(item.amount for item in items)` */
  function SubTotal(lines: seq<Line>): real {
    if lines == [] then 0.0 else SubTotal(lines[..|lines| - 1]) + lines[|lines| - 1].amount
  }

  /**
   * `sum(item.cost for item in items if item.cost is not None)`. The cost
   * column is non-null with a default of 0.00, so every stored item has a cost
   * and the guard skips nothing.
   */
  function TotalCost(lines: seq<Line>): real {
    if lines == [] then 0.0 else TotalCost(lines[..|lines| - 1]) + lines[|lines| - 1].cost
  }

  /** `sub_total * (1 + tax_percentage / 100)` */
  function TotalAmount(subTotal: real, taxPercentage: real): real {
    subTotal * (1.0 + taxPercentage / 100.0)
  }

  /** `sum(item.quantity for item in items if item.unit == 'hours')` */
  function HoursTotal(lines: seq<Line>): nat {
    if lines == [] then 0
    else HoursTotal(lines[..|lines| - 1]) + (if lines[|lines| - 1].unit == HoursUnit then lines[|lines| - 1].quantity else 0)
  }

  /** The sub-total of a list of items is the sum of the sub-totals of any split of it. */
  lemma {:induction false} SubTotalAppend(a: seq<Line>, b: seq<Line>)
    ensures SubTotal(a + b) == SubTotal(a) + SubTotal(b)
    decreases |b|
  {
    if b != [] {
      assert (a + b)[..|a + b| - 1] == a + b[..|b| - 1];
      SubTotalAppend(a, b[..|b| - 1]);
    } else {
      assert a + b == a;
    }
  }

  lemma {:induction false} TotalCostAppend(a: seq<Line>, b: seq<Line>)
    ensures TotalCost(a + b) == TotalCost(a) + TotalCost(b)
    decreases |b|
  {
    if b != [] {
      assert (a + b)[..|a + b| - 1] == a + b[..|b| - 1];
      TotalCostAppend(a, b[..|b| - 1]);
    } else {
      assert a + b == a;
    }
  }

  lemma {:induction false} HoursTotalAppend(a: seq<Line>, b: seq<Line>)
    ensures HoursTotal(a + b) == HoursTotal(a) + HoursTotal(b)
    decreases |b|
  {
    if b != [] {
      assert (a + b)[..|a + b| - 1] == a + b[..|b| - 1];
      HoursTotalAppend(a, b[..|b| - 1]);
    } else {
      assert a + b == a;
    }
  }

  /** Items whose unit is not exactly "hours" add nothing to the hour total. */
  lemma {:induction false} HoursTotalOnlyHours(lines: seq<Line>)
    requires forall i :: 0 <= i < |lines| ==> lines[i].unit != HoursUnit
    ensures HoursTotal(lines) == 0
  {
    if lines != [] {
      HoursTotalOnlyHours(lines[..|lines| - 1]);
    }
  }

  /** With non-negative prices every amount is non-negative, and so is the sub-total. */
  lemma {:induction false} SubTotalNonNegative(ds: seq<ItemData>)
    requires forall i :: 0 <= i < |ds| ==> ds[i].pricePerUnit >= 0.0
    ensures SubTotal(LinesOf(ds)) >= 0.0
  {
    var lines := LinesOf(ds);
    if ds != [] {
      SubTotalNonNegative(ds[..|ds| - 1]);
      assert lines[..|lines| - 1] == LinesOf(ds[..|ds| - 1]);
    }
  }

  /** Tax only ever adds: with a non-negative sub-total and tax the total is at least the sub-total, and no tax adds nothing. */
  lemma TaxOnlyAdds(subTotal: real, taxPercentage: real)
    ensures taxPercentage == 0.0 ==> TotalAmount(subTotal, taxPercentage) == subTotal
    ensures subTotal >= 0.0 && taxPercentage >= 0.0 ==> TotalAmount(subTotal, taxPercentage) >= subTotal
    ensures TotalAmount(subTotal, taxPercentage) == subTotal + subTotal * taxPercentage / 100.0
  {
    if subTotal >= 0.0 && taxPercentage >= 0.0 {
      assert subTotal * (taxPercentage / 100.0) >= 0.0;
    }
  }

  // ---------------------------------------------------------------------------
  // Quotes
  // ---------------------------------------------------------------------------

  /** The validated header fields of a new quote; those with a model default are optional. */
  datatype QuoteData = QuoteData(quoteName: string, status: Option<string>, client: Option<nat>,
                                 taxPercentage: Option<real>, inHouseCost: Option<real>, outsourcedCost: Option<real>)

  /** The header fields a partial update may carry; a present field is assigned. */
  datatype QuoteChanges = QuoteChanges(quoteName: Option<string>, status: Option<string>, client: Option<Option<nat>>,
                                       taxPercentage: Option<real>, inHouseCost: Option<real>, outsourcedCost: Option<real>)

  class Quote {
    var quoteName: string
    var status: string
    var client: Option<nat>
    var taxPercentage: real
    var inHouseCost: real
    var outsourcedCost: real
    var subTotal: real
    var totalAmount: real
    var totalCost: real
    var items: seq<QuoteItem>

    /** The stored totals agree with the stored items. */
    predicate TotalsAgree()
      reads this, items
    {
      && subTotal == SubTotal(Lines(items))
      && totalCost == TotalCost(Lines(items))
      && totalAmount == TotalAmount(subTotal, taxPercentage)
    }

    /** `Quote.objects.create(**data)`: a quote with no items and every default applied. */
    constructor (d: QuoteData)
      ensures quoteName == d.quoteName && status == d.status.GetOr(DefaultStatus) && client == d.client
      ensures taxPercentage == d.taxPercentage.GetOr(0.0)
      ensures inHouseCost == d.inHouseCost.GetOr(0.0) && outsourcedCost == d.outsourcedCost.GetOr(0.0)
      ensures subTotal == 0.0 && totalAmount == 0.0 && totalCost == 0.0 && items == []
    {
      quoteName := d.quoteName;
      status := d.status.GetOr(DefaultStatus);
      client := d.client;
      taxPercentage := d.taxPercentage.GetOr(0.0);
      inHouseCost := d.inHouseCost.GetOr(0.0);
      outsourcedCost := d.outsourcedCost.GetOr(0.0);
      subTotal := 0.0;
      totalAmount := 0.0;
      totalCost := 0.0;
      items := [];
    }

    /** `super().update(instance, validated_data)`: every field present in `c` is assigned, the rest kept. */
    method ApplyChanges(c: QuoteChanges)
      modifies this
      ensures quoteName == c.quoteName.GetOr(old(quoteName)) && status == c.status.GetOr(old(status))
      ensures client == c.client.GetOr(old(client)) && taxPercentage == c.taxPercentage.GetOr(old(taxPercentage))
      ensures inHouseCost == c.inHouseCost.GetOr(old(inHouseCost))
      ensures outsourcedCost == c.outsourcedCost.GetOr(old(outsourcedCost))
      ensures subTotal == old(subTotal) && totalAmount == old(totalAmount) && totalCost == old(totalCost)
      ensures items == old(items)
    {
      quoteName := c.quoteName.GetOr(quoteName);
      status := c.status.GetOr(status);
      client := c.client.GetOr(client);
      taxPercentage := c.taxPercentage.GetOr(taxPercentage);
      inHouseCost := c.inHouseCost.GetOr(inHouseCost);
      outsourcedCost := c.outsourcedCost.GetOr(outsourcedCost);
    }
  }

  /** `QuoteSerializer._calculate_totals(quote)` */
  method CalculateTotals(quote: Quote)
    modifies quote`subTotal, quote`totalAmount, quote`totalCost
    ensures quote.TotalsAgree()
  {
    var lines := Lines(quote.items);
    var subTotal, totalCost := 0.0, 0.0;
    for i := 0 to |lines|
      invariant subTotal == SubTotal(lines[..i]) && totalCost == TotalCost(lines[..i])
    {
      assert lines[..i + 1][..i] == lines[..i];
      subTotal := subTotal + lines[i].amount;
      totalCost := totalCost + lines[i].cost;
    }
    assert lines[..|lines|] == lines;
    var tax := quote.taxPercentage;
    quote.subTotal := subTotal;
    quote.totalAmount := subTotal * (1.0 + tax / 100.0);
    quote.totalCost := totalCost;
  }

  /** The items created from `itemsData`, in order, each a new object. */
  method CreateItems(itemsData: seq<ItemData>) returns (items: seq<QuoteItem>)
    ensures Lines(items) == LinesOf(itemsData)
    ensures forall i :: 0 <= i < |items| ==> fresh(items[i])
  {
    items := [];
    for i := 0 to |itemsData|
      invariant |items| == i
      invariant forall k :: 0 <= k < i ==> fresh(items[k]) && items[k].Snapshot() == LineOf(itemsData[k])
    {
      var item := new QuoteItem(itemsData[i]);
      items := items + [item];
    }
  }

  /** `QuoteSerializer.create(validated_data)`: the quote, one item per entry of `itemsData`, then the totals. */
  method CreateQuote(d: QuoteData, itemsData: seq<ItemData>) returns (quote: Quote)
    ensures fresh(quote)
    ensures quote.quoteName == d.quoteName && quote.status == d.status.GetOr(DefaultStatus) && quote.client == d.client
    ensures quote.taxPercentage == d.taxPercentage.GetOr(0.0)
    ensures quote.inHouseCost == d.inHouseCost.GetOr(0.0) && quote.outsourcedCost == d.outsourcedCost.GetOr(0.0)
    ensures Lines(quote.items) == LinesOf(itemsData)
    ensures quote.TotalsAgree()
  {
    quote := new Quote(d);
    var items := CreateItems(itemsData);
    quote.items := items;
    CalculateTotals(quote);
  }

  /**
   * `QuoteSerializer.update(instance, validated_data)`: the header changes are
   * applied; given items replace all the old ones, omitted items leave them;
   * then the totals are recomputed.
   */
  method UpdateQuote(quote: Quote, c: QuoteChanges, itemsData: Option<seq<ItemData>>)
    modifies quote
    ensures quote.quoteName == c.quoteName.GetOr(old(quote.quoteName)) && quote.status == c.status.GetOr(old(quote.status))
    ensures quote.client == c.client.GetOr(old(quote.client))
    ensures quote.taxPercentage == c.taxPercentage.GetOr(old(quote.taxPercentage))
    ensures quote.inHouseCost == c.inHouseCost.GetOr(old(quote.inHouseCost))
    ensures quote.outsourcedCost == c.outsourcedCost.GetOr(old(quote.outsourcedCost))
    ensures itemsData.None? ==> quote.items == old(quote.items)
    ensures itemsData.Some? ==>
              && Lines(quote.items) == LinesOf(itemsData.value)
              && forall i :: 0 <= i < |quote.items| ==> fresh(quote.items[i])
    ensures quote.TotalsAgree()
  {
    quote.ApplyChanges(c);
    if itemsData.Some? {
      quote.items := [];
      var items := CreateItems(itemsData.value);
      quote.items := items;
    }
    CalculateTotals(quote);
  }
}
