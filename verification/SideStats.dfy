/** The quantities analytics reads off a side's cached totals are the sums over its resting orders. */
module SideStats {
  import opened Orders
  import opened Matching
  import opened Ladders
  import opened MatchTheorems
  import opened PriceLevels
  import opened OrderBooks

  /** The cached totals of the levels from `i` up to `n`, added up. */
  function TotalBetween(levels: seq<PriceLevel>, i: nat, n: nat): nat
    requires i <= n <= |levels|
    reads levels
    decreases n - i
  {
    if i == n then 0 else levels[i].totalQty + TotalBetween(levels, i + 1, n)
  }

  function VisibleBetween(levels: seq<PriceLevel>, i: nat, n: nat): nat
    requires i <= n <= |levels|
    reads levels
    decreases n - i
  {
    if i == n then 0 else levels[i].visibleQty + VisibleBetween(levels, i + 1, n)
  }

  /** How many levels are no worse than `worst`: they stand in front, since levels are sorted. */
  function UpperBound(side: Side, levels: seq<PriceLevel>, worst: Price, i: nat): (n: nat)
    requires i <= |levels|
    ensures i <= n <= |levels|
    ensures forall k :: i <= k < n ==> !Better(side, worst, levels[k].price)
    ensures n < |levels| ==> Better(side, worst, levels[n].price)
    decreases |levels| - i
  {
    if i < |levels| && !Better(side, worst, levels[i].price) then UpperBound(side, levels, worst, i + 1) else i
  }

  lemma {:induction false} TotalsAreSums(side: OrderBook, i: nat)
    requires side.Valid() && i <= |side.levels|
    ensures TotalBetween(side.levels, i, |side.levels|) == LadderSum(side.State()[i..], Remaining)
    ensures VisibleBetween(side.levels, i, |side.levels|) == LadderSum(side.State()[i..], Shown)
    decreases |side.levels| - i
  {
    if i < |side.levels| {
      TotalsAreSums(side, i + 1);
      assert side.State()[i..][1..] == side.State()[i + 1..];
    }
  }

  lemma {:induction false} ThroughIsSum(side: OrderBook, worst: Price, i: nat)
    requires side.Valid() && i <= |side.levels|
    ensures TotalBetween(side.levels, i, UpperBound(side.side, side.levels, worst, i))
            == QtyThrough(side.side, side.State()[i..], worst)
    decreases |side.levels| - i
  {
    if i < |side.levels| && !Better(side.side, worst, side.levels[i].price) {
      ThroughIsSum(side, worst, i + 1);
      assert side.State()[i..][1..] == side.State()[i + 1..];
    }
  }

  /** All resting quantity of a side, hidden size included, from the cached totals. */
  function RestingQty(side: OrderBook): nat
    reads side, side.levels
  {
    TotalBetween(side.levels, 0, |side.levels|)
  }

  function VisibleQty(side: OrderBook): nat
    reads side, side.levels
  {
    VisibleBetween(side.levels, 0, |side.levels|)
  }

  /** QtyThrough, read off the cached totals. */
  function QtyThroughOf(side: OrderBook, worst: Price): nat
    reads side, side.levels
  {
    TotalBetween(side.levels, 0, UpperBound(side.side, side.levels, worst, 0))
  }

  /** The statistics say what the resting orders add up to, and what a sweep of the side would fill. */
  lemma StatsAreExact(side: OrderBook, a: OrderState)
    requires side.Valid() && Kept(side.side, side.State(), a) && a.side == side.side.Opposite()
    ensures RestingQty(side) == LadderSum(side.State(), Remaining) && VisibleQty(side) == LadderSum(side.State(), Shown)
    ensures
      var m := Match(side.State(), a, a.remaining);
      var offered := if a.terms.Market? then RestingQty(side) else QtyThroughOf(side, a.terms.limit);
      !m.blocked ==> m.left == a.remaining - Min(a.remaining, offered)
  {
    assert side.State()[0..] == side.State();
    TotalsAreSums(side, 0);
    if !a.terms.Market? {
      ThroughIsSum(side, a.terms.limit, 0);
    }
    SweepClosedForm(side.side, side.State(), a, a.remaining);
  }
}
