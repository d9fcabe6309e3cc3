/** The gross-margin formula (`calculateGMData` in
    src/components/Planning/PlanningGrid.tsx), which the grid uses per cell.
    The chart works out the same dollar figures per fact itself and shares
    only the percentage rule. */
module Margin {

  /** The three derived cells of one week: sales dollars, gross-margin
      dollars and gross-margin percentage. */
  datatype Metrics = Metrics(salesDollars: real, gmDollars: real, gmPercentage: real)

  /** The percentage rule shared by the grid and the chart: margin over sales
      in percent, and 0 whenever sales are not positive. */
  function Percentage(gmDollars: real, salesDollars: real): (p: real)
    ensures salesDollars > 0.0 ==> p * salesDollars == 100.0 * gmDollars
    ensures salesDollars <= 0.0 ==> p == 0.0
    ensures salesDollars > 0.0 && 0.0 <= gmDollars <= salesDollars ==> 0.0 <= p <= 100.0
  {
    if salesDollars > 0.0 then gmDollars / salesDollars * 100.0 else 0.0
  }

  /** `calculateGMData(salesUnits, price, cost)`. */
  function GmData(salesUnits: real, price: real, cost: real): (m: Metrics)
    ensures m.salesDollars == salesUnits * price
    ensures m.gmDollars == salesUnits * (price - cost)
    ensures m.salesDollars > 0.0 ==> m.gmPercentage * m.salesDollars == 100.0 * m.gmDollars
    ensures m.salesDollars <= 0.0 ==> m.gmPercentage == 0.0
  {
    var salesDollars := salesUnits * price;
    var gmDollars := salesDollars - salesUnits * cost;
    Metrics(salesDollars, gmDollars, Percentage(gmDollars, salesDollars))
  }

  /** Zero units give three exact zeros, never a NaN percentage. */
  lemma ZeroUnitsGiveZeros(price: real, cost: real)
    ensures GmData(0.0, price, cost) == Metrics(0.0, 0.0, 0.0)
  {
  }

  /** With positive units and price the percentage depends on price and cost
      only: it is the margin per unit over the price. */
  lemma PercentageIndependentOfUnits(salesUnits: real, price: real, cost: real)
    requires salesUnits > 0.0 && price > 0.0
    ensures GmData(salesUnits, price, cost).gmPercentage == 100.0 * (price - cost) / price
  {
    var m := GmData(salesUnits, price, cost);
    assert m.salesDollars > 0.0;
    assert m.gmPercentage * (salesUnits * price) == 100.0 * (salesUnits * (price - cost));
    assert salesUnits * (m.gmPercentage * price) == salesUnits * (100.0 * (price - cost));
    assert m.gmPercentage * price == 100.0 * (price - cost);
  }

  /** A cost between zero and the price keeps the percentage within 0..100. */
  lemma PercentageWithinBounds(salesUnits: real, price: real, cost: real)
    requires salesUnits > 0.0 && price > 0.0 && 0.0 <= cost <= price
    ensures 0.0 <= GmData(salesUnits, price, cost).gmPercentage <= 100.0
  {
    var sales := salesUnits * price;
    var gm := salesUnits * (price - cost);
    assert sales > 0.0;
    assert 0.0 <= gm;
    assert gm <= sales by {
      assert sales - gm == salesUnits * cost;
    }
  }

  /** The worked example: 10 units at 25.00 with cost 15.00. */
  lemma WorkedExample()
    ensures GmData(10.0, 25.0, 15.0) == Metrics(250.0, 100.0, 40.0)
  {
  }
}
