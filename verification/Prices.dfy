/** Pricing an attempt's usage: each token is priced once or reported as unknown, without rounding. */
module Prices {
  import opened Common

  datatype Category = Input | Output | CacheRead | CacheCreation | Reasoning

  datatype Basis = InputOutput | InputOnly

  /** A price per million tokens, in units of 10^-18; a price has at most 18 decimal places. */
  datatype Price = Price(version: string, units: nat, effectiveAt: int)

  /** The amount is in units of 10^-24: a price in its own units, for one token of a million. */
  datatype Line = Line(category: Category, quantity: nat, price: Price, amount: nat)

  function Totals(basis: Basis): set<Category> {
    if basis == InputOutput then {Input, Output} else {Input}
  }

  /** The details that are a part of a total. */
  function DetailsOf(total: Category): seq<Category> {
    if total == Input then [CacheRead, CacheCreation] else if total == Output then [Reasoning] else []
  }

  // ---------------------------------------------------------------- partition

  type Usage = map<Category, nat>

  type Rates = map<Category, Price>

  /** The parts taken out of a total so far and what is left of it, or a priced detail that is not known. */
  datatype Walked = Walked(parts: map<Category, nat>, left: int) | Missing(detail: Category)

  function Take(w: Walked, detail: Category, usage: Usage, rates: Rates): Walked {
    match w
    case Missing(_) => w
    case Walked(parts, left) =>
      if detail !in rates then w
      else if detail !in usage then Missing(detail)
      else Walked(parts[detail := usage[detail]], left - usage[detail])
  }

  function Walk(quantity: nat, details: seq<Category>, usage: Usage, rates: Rates): Walked {
    if details == [] then Walked(map[], quantity)
    else Take(Walk(quantity, details[..|details| - 1], usage, rates), details[|details| - 1], usage, rates)
  }

  /** What one group adds to the priced quantities, and what it leaves unknown. */
  datatype Group = Group(quantities: map<Category, nat>, unknown: set<Category>)

  function SplitOf(usage: Usage, rates: Rates, total: Category): Group {
    if total !in usage then Group(map[], {total})
    else
      match Walk(usage[total], DetailsOf(total), usage, rates)
      case Missing(detail) => Group(map[], {detail, total})
      case Walked(parts, left) =>
        if left < 0 then Group(map[], {total}) else Group(parts[total := left], {})
  }

  /** Split one total into the details that have a price of their own and the remainder. */
  method SplitGroup(usage: Usage, rates: Rates, total: Category) returns (g: Group)
    ensures g == SplitOf(usage, rates, total)
  {
    if total !in usage {
      return Group(map[], {total});
    }
    var details := DetailsOf(total);
    var quantity: int := usage[total];
    var parts: map<Category, nat> := map[];
    for i := 0 to |details|
      invariant Walk(usage[total], details[..i], usage, rates) == Walked(parts, quantity)
    {
      assert details[..i + 1][..i] == details[..i];
      var detail := details[i];
      if detail !in rates {
        continue;
      }
      if detail !in usage {
        MissingStays(usage[total], details, i + 1, usage, rates);
        return Group(map[], {detail, total});
      }
      parts := parts[detail := usage[detail]];
      quantity := quantity - usage[detail];
    }
    assert details[..|details|] == details;
    g := if quantity < 0 then Group(map[], {total}) else Group(parts[total := quantity], {});
  }

  lemma {:induction false} MissingStays(quantity: nat, details: seq<Category>, i: nat, usage: Usage, rates: Rates)
    requires i <= |details| && Walk(quantity, details[..i], usage, rates).Missing?
    ensures Walk(quantity, details, usage, rates) == Walk(quantity, details[..i], usage, rates)
    decreases |details|
  {
    if i == |details| {
      assert details[..i] == details;
    } else {
      assert details[..|details| - 1][..i] == details[..i];
      MissingStays(quantity, details[..|details| - 1], i, usage, rates);
    }
  }

  function QuantityOf(quantities: map<Category, nat>, c: Category): nat {
    if c in quantities then quantities[c] else 0
  }

  function SumOf(quantities: map<Category, nat>, categories: seq<Category>): nat {
    if categories == [] then 0
    else
      SumOf(quantities, categories[..|categories| - 1]) + QuantityOf(quantities, categories[|categories| - 1])
  }

  lemma {:induction false} SumFrame(quantities: map<Category, nat>, categories: seq<Category>, c: Category, n: nat)
    requires c !in categories
    ensures SumOf(quantities[c := n], categories) == SumOf(quantities, categories)
  {
    if categories != [] {
      SumFrame(quantities, categories[..|categories| - 1], c, n);
    }
  }

  /** What is taken and what is left make up the total; what is taken is the priced details as stated. */
  lemma {:induction false} WalkConserves(quantity: nat, details: seq<Category>, usage: Usage, rates: Rates)
    requires Distinct(details)
    ensures var w := Walk(quantity, details, usage, rates);
            if w.Walked? then
              && SumOf(w.parts, details) + w.left == quantity
              && (forall c :: c in w.parts <==> c in details && c in rates)
              && (forall c :: c in w.parts ==> c in usage && w.parts[c] == usage[c])
            else w.detail in details && w.detail in rates && w.detail !in usage
  {
    if details != [] {
      var n := |details| - 1;
      var c := details[n];
      WalkConserves(quantity, details[..n], usage, rates);
      assert details == details[..n] + [c];
      assert c !in details[..n];
      var w := Walk(quantity, details[..n], usage, rates);
      if w.Walked? && c in rates && c in usage {
        SumFrame(w.parts, details[..n], c, usage[c]);
      }
    }
  }

  lemma DetailsAreApart(total: Category)
    ensures Distinct(DetailsOf(total)) && total !in DetailsOf(total)
    ensures forall c, other: Category :: c in DetailsOf(total) && c in DetailsOf(other) ==> other == total
  {
  }

  /**
   * Each total is either split or unknown as a whole. A split group's parts are the stated counts of the
   * details that have their own price, and with the remainder they sum to the total: nothing counts twice.
   */
  lemma PartitionIsExact(usage: Usage, rates: Rates, total: Category)
    requires total == Input || total == Output
    ensures var g := SplitOf(usage, rates, total);
            if g.unknown != {} then g.quantities == map[] && total in g.unknown
            else
              && total in usage && total in g.quantities
              && SumOf(g.quantities, DetailsOf(total)) + g.quantities[total] == usage[total]
              && (forall c :: c in g.quantities && c != total ==>
                    c in DetailsOf(total) && c in rates && c in usage && g.quantities[c] == usage[c])
              && (forall c :: c in DetailsOf(total) && c in rates ==> c in g.quantities)
  {
    DetailsAreApart(total);
    if total in usage {
      var details := DetailsOf(total);
      WalkConserves(usage[total], details, usage, rates);
      var w := Walk(usage[total], details, usage, rates);
      if w.Walked? && w.left >= 0 {
        SumFrame(w.parts, details, total, w.left);
      }
    }
  }

  /** Which totals are left unknown: those not stated, with an unstated priced detail, or exceeded by theirs. */
  lemma UnknownIff(usage: Usage, rates: Rates, total: Category)
    requires total == Input || total == Output
    ensures var details := DetailsOf(total);
            SplitOf(usage, rates, total).unknown == {} <==>
              && total in usage
              && (forall c :: c in details && c in rates ==> c in usage)
              && SumOf(map c | c in details && c in rates && c in usage :: usage[c], details) <= usage[total]
  {
    DetailsAreApart(total);
    if total in usage {
      var details := DetailsOf(total);
      WalkConserves(usage[total], details, usage, rates);
      var w := Walk(usage[total], details, usage, rates);
      if w.Walked? {
        assert w.parts == map c | c in details && c in rates && c in usage :: usage[c];
      }
    }
  }

  // ---------------------------------------------------------------- lines

  const QUANTITY_BOUND := 1_000_000_000_000_000_000
  const PRICE_BOUND := 1_000_000_000_000_000_000_000_000_000_000
  const LINE_BOUND := 1_000_000_000_000_000_000_000_000_000_000_000_000_000_000_000_000
  const FIFTY_DIGITS := 100_000_000_000_000_000_000_000_000_000_000_000_000_000_000_000_000

  /** A decimal context of 50 digits keeps a coefficient of at most 50 digits as it is. */
  predicate Exact(coefficient: nat) {
    coefficient < FIFTY_DIGITS
  }

  function AmountOf(price: Price, quantity: nat): nat {
    price.units * quantity
  }

  function LineOf(c: Category, quantity: nat, rates: Rates): Line
    requires c in rates
  {
    Line(c, quantity, rates[c], AmountOf(rates[c], quantity))
  }

  ghost predicate Bounded(usage: Usage, rates: Rates) {
    && (forall c :: c in usage ==> usage[c] < QUANTITY_BOUND)
    && (forall c :: c in rates ==> rates[c].units <= PRICE_BOUND)
  }

  lemma ProductBound(a: nat, b: nat, x: nat, y: nat)
    requires a <= x && b <= y
    ensures a * b <= x * y
  {
  }

  /** A line's product is exact: thirty digits of price and eighteen of quantity make fewer than fifty. */
  lemma LineIsExact(price: Price, quantity: nat)
    requires price.units <= PRICE_BOUND && quantity < QUANTITY_BOUND
    ensures AmountOf(price, quantity) <= LINE_BOUND && Exact(AmountOf(price, quantity))
  {
    ProductBound(price.units, quantity, PRICE_BOUND, QUANTITY_BOUND);
    assert PRICE_BOUND * QUANTITY_BOUND == LINE_BOUND;
  }

  /** The quantities of all groups, and what is unknown in any of them. */
  function Quantities(usage: Usage, rates: Rates, basis: Basis): Group {
    var input := SplitOf(usage, rates, Input);
    if basis == InputOnly then input
    else
      var output := SplitOf(usage, rates, Output);
      Group(input.quantities + output.quantities, input.unknown + output.unknown)
  }

  /** The categories in the order in which they are priced. */
  const ORDER := [CacheRead, CacheCreation, Input, Reasoning, Output]

  function Lines(quantities: map<Category, nat>, rates: Rates, order: seq<Category>): seq<Line> {
    if order == [] then []
    else
      var c := order[|order| - 1];
      Lines(quantities, rates, order[..|order| - 1])
      + if c in quantities && c in rates then [LineOf(c, quantities[c], rates)] else []
  }

  function AmountIn(lines: seq<Line>): nat {
    if lines == [] then 0 else AmountIn(lines[..|lines| - 1]) + lines[|lines| - 1].amount
  }

  /** Categories that have a quantity but no price. */
  function Unpriced(quantities: map<Category, nat>, rates: Rates): set<Category> {
    set c | c in quantities && c !in rates
  }

  method PriceAll(quantities: map<Category, nat>, rates: Rates, order: seq<Category>) returns (lines: seq<Line>)
    ensures lines == Lines(quantities, rates, order)
  {
    lines := [];
    for i := 0 to |order|
      invariant lines == Lines(quantities, rates, order[..i])
    {
      assert order[..i + 1][..i] == order[..i];
      var c := order[i];
      if c in quantities && c in rates {
        lines := lines + [Line(c, quantities[c], rates[c], rates[c].units * quantities[c])];
      }
    }
    assert order[..|order|] == order;
  }

  lemma OneMore(n: nat, bound: nat)
    ensures (n + 1) * bound == n * bound + bound
    ensures n * bound <= (n + 1) * bound
  {
  }

  lemma {:induction false} LinesExact(quantities: map<Category, nat>, rates: Rates, order: seq<Category>)
    requires forall c :: c in quantities ==> quantities[c] < QUANTITY_BOUND
    requires forall c :: c in rates ==> rates[c].units <= PRICE_BOUND
    ensures AmountIn(Lines(quantities, rates, order)) <= |order| * LINE_BOUND
    ensures forall line :: line in Lines(quantities, rates, order) ==> Exact(line.amount)
  {
    if order != [] {
      var n := |order| - 1;
      LinesExact(quantities, rates, order[..n]);
      var c := order[n];
      var before := Lines(quantities, rates, order[..n]);
      OneMore(n, LINE_BOUND);
      if c in quantities && c in rates {
        LineIsExact(rates[c], quantities[c]);
        assert (before + [LineOf(c, quantities[c], rates)])[..|before|] == before;
      } else {
        assert Lines(quantities, rates, order) == before;
      }
    }
  }

  /** With bounded prices and counts neither a line nor the sum of the lines needs rounding at 50 digits. */
  lemma AmountsAreExact(usage: Usage, rates: Rates, basis: Basis)
    requires Bounded(usage, rates)
    ensures var lines := Lines(Quantities(usage, rates, basis).quantities, rates, ORDER);
            && Exact(AmountIn(lines)) && forall line :: line in lines ==> Exact(line.amount)
  {
    PartitionIsExact(usage, rates, Input);
    PartitionIsExact(usage, rates, Output);
    LinesExact(Quantities(usage, rates, basis).quantities, rates, ORDER);
  }

  /** Groups do not overlap, so merging them keeps each group's own split. */
  lemma GroupsStayApart(usage: Usage, rates: Rates)
    ensures SplitOf(usage, rates, Input).quantities.Keys !! SplitOf(usage, rates, Output).quantities.Keys
  {
    PartitionIsExact(usage, rates, Input);
    PartitionIsExact(usage, rates, Output);
  }

  lemma {:induction false} SameSum(a: map<Category, nat>, b: map<Category, nat>, categories: seq<Category>)
    requires forall c :: c in categories ==> QuantityOf(a, c) == QuantityOf(b, c)
    ensures SumOf(a, categories) == SumOf(b, categories)
  {
    if categories != [] {
      SameSum(a, b, categories[..|categories| - 1]);
    }
  }

  /**
   * In the merged result each total of the basis is either unknown with nothing of its group priced, or made
   * up exactly of its own parts.
   */
  lemma EachTokenOnce(usage: Usage, rates: Rates, basis: Basis, total: Category)
    requires total in Totals(basis)
    ensures var g := Quantities(usage, rates, basis);
            if SplitOf(usage, rates, total).unknown != {} then
              total in g.unknown && total !in g.quantities
              && forall c :: c in DetailsOf(total) ==> c !in g.quantities
            else
              total in usage && total in g.quantities
              && SumOf(g.quantities, DetailsOf(total)) + g.quantities[total] == usage[total]
  {
    hide SumOf, SplitOf;
    PartitionIsExact(usage, rates, Input);
    PartitionIsExact(usage, rates, Output);
    GroupsStayApart(usage, rates);
    var own, all := SplitOf(usage, rates, total).quantities, Quantities(usage, rates, basis).quantities;
    forall c | c in DetailsOf(total) ensures QuantityOf(own, c) == QuantityOf(all, c) {
    }
    SameSum(own, all, DetailsOf(total));
  }

  // ---------------------------------------------------------------- what is priced and what is not

  /** The quantity of the lines of one category. */
  function QuantityIn(lines: seq<Line>, c: Category): nat {
    if lines == [] then 0
    else
      var line := lines[|lines| - 1];
      QuantityIn(lines[..|lines| - 1], c) + if line.category == c then line.quantity else 0
  }

  function QuantitiesIn(lines: seq<Line>, categories: seq<Category>): nat {
    if categories == [] then 0
    else QuantitiesIn(lines, categories[..|categories| - 1]) + QuantityIn(lines, categories[|categories| - 1])
  }

  /** Each line is at its rate, without rounding, and no category has two. */
  ghost predicate AtRates(lines: seq<Line>, rates: Rates) {
    && (forall i :: 0 <= i < |lines| ==>
          && lines[i].category in rates && lines[i].price == rates[lines[i].category]
          && lines[i].amount == lines[i].price.units * lines[i].quantity)
    && forall i, j :: 0 <= i < j < |lines| ==> lines[i].category != lines[j].category
  }

  /** The counts allow the total to be split: it is stated, and so are its priced details, which do not exceed it. */
  ghost predicate Splits(usage: Usage, rates: Rates, total: Category) {
    && total in usage
    && (forall c :: c in DetailsOf(total) && c in rates ==> c in usage)
    && SumOf(PricedDetails(usage, rates, total), DetailsOf(total)) <= usage[total]
  }

  function PricedDetails(usage: Usage, rates: Rates, total: Category): map<Category, nat> {
    map c | c in DetailsOf(total) && c in rates && c in usage :: usage[c]
  }

  /**
   * A total that can be split has a line for each priced detail at its stated count. With a rate of its own, its
   * lines together make up the total, else it is unknown. A total that cannot be split is unknown as a whole.
   */
  ghost predicate AccountsFor(
    usage: Usage, rates: Rates, total: Category, lines: seq<Line>, unknown: set<Category>)
  {
    if Splits(usage, rates, total) then
      && (forall c :: c in DetailsOf(total) ==>
            c !in unknown && QuantityIn(lines, c) == if c in rates then usage[c] else 0)
      && (total in unknown <==> total !in rates)
      && (total in rates ==> QuantitiesIn(lines, DetailsOf(total)) + QuantityIn(lines, total) == usage[total])
      && (total !in rates ==> QuantityIn(lines, total) == 0)
    else
      total in unknown && forall line :: line in lines ==> line.category != total && line.category !in DetailsOf(total)
  }

  lemma {:induction false} LinesAtRates(quantities: map<Category, nat>, rates: Rates, order: seq<Category>)
    requires Distinct(order)
    ensures AtRates(Lines(quantities, rates, order), rates)
    ensures forall line :: line in Lines(quantities, rates, order) ==>
              line.category in order && line.category in quantities
  {
    if order != [] {
      var n := |order| - 1;
      LinesAtRates(quantities, rates, order[..n]);
      assert order == order[..n] + [order[n]];
    }
  }

  lemma NoQuantity(c: Category)
    ensures QuantityIn([], c) == 0
  {
  }

  lemma LastOfDistinct(order: seq<Category>)
    requires Distinct(order) && order != []
    ensures var n := |order| - 1;
            && Distinct(order[..n]) && order[n] !in order[..n]
            && forall c :: c in order <==> c in order[..n] || c == order[n]
  {
    assert order == order[..|order| - 1] + [order[|order| - 1]];
  }

  lemma QuantityAppend(lines: seq<Line>, line: Line, c: Category)
    ensures QuantityIn(lines + [line], c) == QuantityIn(lines, c) + if line.category == c then line.quantity else 0
  {
    assert (lines + [line])[..|lines|] == lines;
  }

  lemma {:induction false} LineQuantity(
    quantities: map<Category, nat>, rates: Rates, order: seq<Category>, c: Category)
    requires Distinct(order)
    ensures QuantityIn(Lines(quantities, rates, order), c)
         == if c in order && c in quantities && c in rates then quantities[c] else 0
  {
    hide Distinct, AmountOf, QuantityIn;
    if order == [] {
      assert Lines(quantities, rates, order) == [];
      NoQuantity(c);
    } else {
      var n := |order| - 1;
      var before := Lines(quantities, rates, order[..n]);
      LastOfDistinct(order);
      LineQuantity(quantities, rates, order[..n], c);
      if order[n] in quantities && order[n] in rates {
        QuantityAppend(before, LineOf(order[n], quantities[order[n]], rates), c);
      } else {
        assert Lines(quantities, rates, order) == before;
      }
    }
  }

  /** Every category has its place in the order. */
  lemma OrderIsComplete(c: Category)
    ensures Distinct(ORDER) && c in ORDER
  {
    match c {
      case CacheRead => assert ORDER[0] == c;
      case CacheCreation => assert ORDER[1] == c;
      case Input => assert ORDER[2] == c;
      case Reasoning => assert ORDER[3] == c;
      case Output => assert ORDER[4] == c;
    }
  }

  /** A category has a line exactly when it has a quantity and a rate. */
  lemma PricedQuantity(quantities: map<Category, nat>, rates: Rates, c: Category)
    ensures AtRates(Lines(quantities, rates, ORDER), rates)
    ensures QuantityIn(Lines(quantities, rates, ORDER), c)
         == if c in quantities && c in rates then quantities[c] else 0
    ensures (exists line :: line in Lines(quantities, rates, ORDER) && line.category == c)
       <==> c in quantities && c in rates
  {
    OrderIsComplete(c);
    LinesAtRates(quantities, rates, ORDER);
    LineQuantity(quantities, rates, ORDER, c);
    LineExists(quantities, rates, ORDER, c);
  }

  lemma {:induction false} LineExists(
    quantities: map<Category, nat>, rates: Rates, order: seq<Category>, c: Category)
    ensures c in order && c in quantities && c in rates ==>
              exists line :: line in Lines(quantities, rates, order) && line.category == c
    ensures (exists line :: line in Lines(quantities, rates, order) && line.category == c) ==> c in rates
  {
    if order != [] {
      var n := |order| - 1;
      LineExists(quantities, rates, order[..n], c);
      assert order == order[..n] + [order[n]];
      if order[n] == c && c in quantities && c in rates {
        assert LineOf(c, quantities[c], rates) in Lines(quantities, rates, order);
      }
    }
  }

  lemma {:induction false} SumOfLines(
    lines: seq<Line>, quantities: map<Category, nat>, categories: seq<Category>)
    requires forall c :: c in categories ==> QuantityIn(lines, c) == QuantityOf(quantities, c)
    ensures QuantitiesIn(lines, categories) == SumOf(quantities, categories)
  {
    if categories != [] {
      SumOfLines(lines, quantities, categories[..|categories| - 1]);
    }
  }

  ghost predicate MergedWell(usage: Usage, rates: Rates, basis: Basis, total: Category) {
    var g := Quantities(usage, rates, basis);
    if Splits(usage, rates, total) then
      && total in g.quantities && total !in g.unknown
      && SumOf(g.quantities, DetailsOf(total)) + g.quantities[total] == usage[total]
      && forall c :: c in DetailsOf(total) ==>
           c !in g.unknown && (c in g.quantities <==> c in rates) && (c in rates ==> g.quantities[c] == usage[c])
    else
      total in g.unknown && total !in g.quantities && forall c :: c in DetailsOf(total) ==> c !in g.quantities
  }

  lemma OwnSplit(usage: Usage, rates: Rates, total: Category)
    requires total == Input || total == Output
    ensures var g := SplitOf(usage, rates, total);
            && (g.unknown == {} <==> Splits(usage, rates, total))
            && g.unknown <= {total} + (set c | c in DetailsOf(total))
            && g.quantities.Keys <= {total} + (set c | c in DetailsOf(total))
  {
    UnknownIff(usage, rates, total);
    PartitionIsExact(usage, rates, total);
    DetailsAreApart(total);
    if total in usage {
      WalkConserves(usage[total], DetailsOf(total), usage, rates);
    }
  }

  /** The other group neither adds to a total's categories nor leaves any of them unknown. */
  lemma OtherGroupApart(usage: Usage, rates: Rates, basis: Basis, total: Category, c: Category)
    requires total in Totals(basis) && (c == total || c in DetailsOf(total))
    ensures var g, own := Quantities(usage, rates, basis), SplitOf(usage, rates, total);
            && (c in g.unknown <==> c in own.unknown) && (c in g.quantities <==> c in own.quantities)
            && (c in g.quantities ==> g.quantities[c] == own.quantities[c])
  {
    hide SplitOf, Splits;
    OwnSplit(usage, rates, Input);
    OwnSplit(usage, rates, Output);
  }

  lemma GroupsMerge(usage: Usage, rates: Rates, basis: Basis, total: Category)
    requires total in Totals(basis)
    ensures MergedWell(usage, rates, basis, total)
  {
    hide SplitOf, SumOf, Splits, Quantities;
    EachTokenOnce(usage, rates, basis, total);
    OwnSplit(usage, rates, total);
    PartitionIsExact(usage, rates, total);
    SplitsStates(usage, rates, total);
    OtherGroupApart(usage, rates, basis, total, total);
    forall c | c in DetailsOf(total)
      ensures var g, own := Quantities(usage, rates, basis), SplitOf(usage, rates, total);
              && (c in g.unknown <==> c in own.unknown) && (c in g.quantities <==> c in own.quantities)
              && (c in g.quantities ==> g.quantities[c] == own.quantities[c])
    {
      OtherGroupApart(usage, rates, basis, total, c);
    }
  }

  lemma SplitsStates(usage: Usage, rates: Rates, total: Category)
    ensures Splits(usage, rates, total) ==>
              total in usage && forall c :: c in DetailsOf(total) && c in rates ==> c in usage
  {
  }

  lemma LinesAccount(usage: Usage, rates: Rates, basis: Basis, total: Category)
    requires total in Totals(basis)
    ensures var g := Quantities(usage, rates, basis);
            var unknown := g.unknown + Unpriced(g.quantities, rates);
            AccountsFor(usage, rates, total, Lines(g.quantities, rates, ORDER), unknown)
  {
    hide Quantities, SumOf, Splits, Lines;
    var g := Quantities(usage, rates, basis);
    var lines := Lines(g.quantities, rates, ORDER);
    GroupsMerge(usage, rates, basis, total);
    SplitsStates(usage, rates, total);
    PricedQuantity(g.quantities, rates, total);
    forall c | c in DetailsOf(total)
      ensures QuantityIn(lines, c) == if c in g.quantities && c in rates then g.quantities[c] else 0
      ensures (exists line :: line in lines && line.category == c) <==> c in g.quantities && c in rates
    {
      PricedQuantity(g.quantities, rates, c);
    }
    if Splits(usage, rates, total) {
      SumOfLines(lines, g.quantities, DetailsOf(total));
    }
  }

  lemma LinesOfBasis(usage: Usage, rates: Rates, basis: Basis)
    ensures var lines := Lines(Quantities(usage, rates, basis).quantities, rates, ORDER);
            && AtRates(lines, rates)
            && forall line :: line in lines ==>
                 exists total :: total in Totals(basis) && (line.category == total || line.category in DetailsOf(total))
  {
    hide SplitOf, Lines, AtRates;
    var q := Quantities(usage, rates, basis).quantities;
    OrderIsComplete(Input);
    LinesAtRates(q, rates, ORDER);
    OwnSplit(usage, rates, Input);
    OwnSplit(usage, rates, Output);
    forall line | line in Lines(q, rates, ORDER)
      ensures exists total :: total in Totals(basis)
                              && (line.category == total || line.category in DetailsOf(total))
    {
      var total := if line.category in SplitOf(usage, rates, Input).quantities then Input else Output;
      assert total in Totals(basis);
    }
  }

  /** Split every total, price each part that has a rate, and report what is unknown. */
  method PriceLines(usage: Usage, rates: Rates, basis: Basis) returns (lines: seq<Line>, unknown: set<Category>)
    ensures var g := Quantities(usage, rates, basis);
            lines == Lines(g.quantities, rates, ORDER) && unknown == g.unknown + Unpriced(g.quantities, rates)
    ensures AtRates(lines, rates)
    ensures forall line :: line in lines ==>
              exists total :: total in Totals(basis) && (line.category == total || line.category in DetailsOf(total))
    ensures forall total :: total in Totals(basis) ==> AccountsFor(usage, rates, total, lines, unknown)
  {
    hide AccountsFor, AtRates, SplitOf, Lines;
    forall total | total in Totals(basis)
      ensures var q := Quantities(usage, rates, basis);
              AccountsFor(
                usage, rates, total, Lines(q.quantities, rates, ORDER), q.unknown + Unpriced(q.quantities, rates))
    {
      LinesAccount(usage, rates, basis, total);
    }
    LinesOfBasis(usage, rates, basis);
    var g := SplitGroup(usage, rates, Input);
    var quantities := g.quantities;
    unknown := g.unknown;
    if basis == InputOutput {
      var more := SplitGroup(usage, rates, Output);
      quantities := quantities + more.quantities;
      unknown := unknown + more.unknown;
    }
    unknown := unknown + set c | c in quantities && c !in rates;
    lines := PriceAll(quantities, rates, ORDER);
  }

  // ---------------------------------------------------------------- registered prices

  datatype Slot = Slot(provider: string, model: string, currency: string, category: Category)

  datatype Registered = Registered(slot: Slot, price: Price)

  datatype Registration = Added | Replayed | Refused(error: string)

  /** The first earlier price that has the same version, or the same slot and time, decides. */
  function Check(log: seq<Registered>, p: Registered): Registration {
    if log == [] then Added
    else
      var before, q := Check(log[..|log| - 1], p), log[|log| - 1];
      if before != Added then before
      else if q.price.version == p.price.version then
        if q == p then Replayed else Refused("Price version identity was reused")
      else if q.slot == p.slot && q.price.effectiveAt == p.price.effectiveAt then
        Refused("A price category already has a version at this time")
      else Added
  }

  function Register(log: seq<Registered>, p: Registered): seq<Registered> {
    if Check(log, p) == Added then log + [p] else log
  }

  function RegisterAll(attempts: seq<Registered>): seq<Registered> {
    if attempts == [] then [] else Register(RegisterAll(attempts[..|attempts| - 1]), attempts[|attempts| - 1])
  }

  class PriceLedger {
    var log: seq<Registered>

    constructor ()
      ensures log == []
    {
      log := [];
    }

    method RegisterPrice(p: Registered) returns (r: Registration)
      modifies this`log
      ensures r == Check(old(log), p) && log == Register(old(log), p)
    {
      for i := 0 to |log|
        invariant log == old(log) && Check(log[..i], p) == Added
      {
        assert log[..i + 1][..i] == log[..i];
        CheckStays(log, i + 1, p);
        if log[i].price.version == p.price.version {
          if log[i] != p {
            return Refused("Price version identity was reused");
          }
          return Replayed;
        }
        if log[i].slot == p.slot && log[i].price.effectiveAt == p.price.effectiveAt {
          return Refused("A price category already has a version at this time");
        }
      }
      assert log[..|log|] == log;
      log := log + [p];
      r := Added;
    }
  }

  lemma {:induction false} CheckStays(log: seq<Registered>, i: nat, p: Registered)
    requires i <= |log|
    ensures Check(log[..i], p) != Added ==> Check(log, p) == Check(log[..i], p)
    decreases |log|
  {
    if i == |log| {
      assert log[..i] == log;
    } else {
      assert log[..|log| - 1][..i] == log[..i];
      CheckStays(log[..|log| - 1], i, p);
    }
  }

  /** Versions differ, and no slot has two prices from the same time on. */
  ghost predicate OnePerTime(log: seq<Registered>) {
    forall i, j :: 0 <= i < j < |log| ==>
      && log[i].price.version != log[j].price.version
      && (log[i].slot == log[j].slot ==> log[i].price.effectiveAt != log[j].price.effectiveAt)
  }

  /** The two prices cannot both be registered, unless they are the same. */
  predicate Clash(q: Registered, p: Registered) {
    q.price.version == p.price.version || (q.slot == p.slot && q.price.effectiveAt == p.price.effectiveAt)
  }

  ghost predicate NoClash(log: seq<Registered>, p: Registered) {
    forall q :: q in log ==> !Clash(q, p)
  }

  lemma NoClashNext(log: seq<Registered>, q: Registered, p: Registered)
    ensures NoClash(log + [q], p) <==> NoClash(log, p) && !Clash(q, p)
  {
    assert (log + [q])[|log|] == q;
    assert forall x :: x in log + [q] <==> x in log || x == q;
    if NoClash(log + [q], p) {
      forall x | x in log ensures !Clash(x, p) {
        assert x in log + [q];
      }
    }
  }

  lemma {:induction false} AddedIsNew(log: seq<Registered>, p: Registered)
    ensures Check(log, p) == Added <==> NoClash(log, p)
  {
    if log != [] {
      var n := |log| - 1;
      AddedIsNew(log[..n], p);
      assert log == log[..n] + [log[n]];
      NoClashNext(log[..n], log[n], p);
    }
  }

  lemma {:induction false} ReplayedIsThere(log: seq<Registered>, p: Registered)
    requires OnePerTime(log)
    ensures Check(log, p) == Replayed <==> p in log
  {
    if log != [] {
      var n := |log| - 1;
      ReplayedIsThere(log[..n], p);
      AddedIsNew(log[..n], p);
      assert log == log[..n] + [log[n]];
      assert p in log <==> p in log[..n] || p == log[n];
      if log[n] == p {
        forall q | q in log[..n] ensures !Clash(q, p) {
          var i :| 0 <= i < n && log[i] == q;
        }
        assert Check(log[..n], p) == Added;
      }
    }
  }

  /** A price is added if and only if none clashes with it, and answered as a replay if and only if it is there. */
  lemma RegistrationIff(attempts: seq<Registered>, p: Registered)
    ensures var log := RegisterAll(attempts);
            && (Check(log, p) == Added <==> forall q :: q in log ==> !Clash(q, p))
            && (Check(log, p) == Replayed <==> p in log)
  {
    PricesStayApart(attempts);
    AddedIsNew(RegisterAll(attempts), p);
    ReplayedIsThere(RegisterAll(attempts), p);
  }

  /** Whatever is registered, versions are never reused and a slot never has two prices at one time. */
  lemma {:induction false} PricesStayApart(attempts: seq<Registered>)
    ensures OnePerTime(RegisterAll(attempts))
  {
    if attempts != [] {
      var n := |attempts| - 1;
      var log, p := RegisterAll(attempts[..n]), attempts[n];
      PricesStayApart(attempts[..n]);
      if Check(log, p) == Added {
        AddedIsNew(log, p);
        assert forall i :: 0 <= i < |log| ==> log[i] in log && !Clash(log[i], p);
      }
    }
  }

  /** The rate in force for a slot at a time: the loop of the estimate, which replaces only by a later price. */
  function RateAt(log: seq<Registered>, slot: Slot, at: int): Option<Price> {
    if log == [] then None
    else
      var before, q := RateAt(log[..|log| - 1], slot, at), log[|log| - 1];
      if q.slot == slot && q.price.effectiveAt <= at
         && (before.None? || q.price.effectiveAt > before.value.effectiveAt) then Some(q.price)
      else before
  }

  /** A slot has a rate if and only if one of its prices is in effect, and it is the latest of those. */
  lemma {:induction false} RateIsLatest(log: seq<Registered>, slot: Slot, at: int)
    ensures var r := RateAt(log, slot, at);
            && (r.Some? <==> exists q :: q in log && q.slot == slot && q.price.effectiveAt <= at)
            && (r.Some? ==> Registered(slot, r.value) in log && r.value.effectiveAt <= at)
            && forall q :: q in log && q.slot == slot && q.price.effectiveAt <= at ==>
                 q.price.effectiveAt <= r.value.effectiveAt
  {
    if log != [] {
      var before, q := log[..|log| - 1], log[|log| - 1];
      RateIsLatest(before, slot, at);
      assert log == before + [q];
      assert q in log;
    }
  }

  /** With prices registered one per time, the latest price in effect is the only one of its time. */
  lemma RateIsUnique(attempts: seq<Registered>, slot: Slot, at: int, q: Registered)
    requires q in RegisterAll(attempts) && q.slot == slot && q.price.effectiveAt <= at
    ensures var r := RateAt(RegisterAll(attempts), slot, at);
            r.Some? && (q.price == r.value || q.price.effectiveAt < r.value.effectiveAt)
  {
    var log := RegisterAll(attempts);
    PricesStayApart(attempts);
    RateIsLatest(log, slot, at);
    var r := Registered(slot, RateAt(log, slot, at).value);
    var i :| 0 <= i < |log| && log[i] == q;
    var j :| 0 <= j < |log| && log[j] == r;
  }
}
