/**
 * frontend/src/components/Chart.jsx: the series behind the pie chart (amount per
 * category) and the bar chart (amount per expense), the colours drawn for the pie,
 * and the total shown under the charts.
 */
module ChartView {
  import opened Wrappers
  import opened JsStrings
  import opened ClientJson
  import opened ExpensesView

  /** `labels` and `data` of the pie chart. */
  datatype PieData = PieData(categories: seq<string>, amounts: seq<int>)

  /** `Object.keys(categoryData)`. */
  function Labels(s: Summary): (r: seq<string>)
    ensures |r| == |s|
  {
    seq(|s|, i requires 0 <= i < |s| => s[i].0)
  }

  /** `Object.values(categoryData)`. */
  function Values(s: Summary): (r: seq<int>)
    ensures |r| == |s|
  {
    seq(|s|, i requires 0 <= i < |s| => s[i].1)
  }

  function Sum(xs: seq<int>): int {
    if xs == [] then 0 else xs[0] + Sum(xs[1..])
  }

  /** The `categoryData` effect: the summary loop, then its keys and values. */
  method CategoryData(items: seq<ExpenseItem>) returns (pie: PieData)
    ensures pie == PieData(Labels(Summarize(items)), Values(Summarize(items)))
  {
    var summary := CategoryWiseSummary(items);
    pie := PieData(Labels(summary), Values(summary));
  }

  lemma {:induction false} SumOfValues(s: Summary)
    ensures Sum(Values(s)) == SumValues(s)
  {
    if s != [] {
      assert Values(s)[1..] == Values(s[1..]);
      SumOfValues(s[1..]);
    }
  }

  lemma {:induction false} KeySetMember(s: Summary, j: nat)
    requires j < |s|
    ensures s[j].0 in KeySet(s)
  {
    if j > 0 {
      KeySetMember(s[1..], j - 1);
    }
  }

  lemma {:induction false} DistinctLabels(s: Summary)
    requires DistinctKeys(s)
    ensures forall i, j :: 0 <= i < j < |s| ==> Labels(s)[i] != Labels(s)[j]
  {
    if s != [] {
      DistinctLabels(s[1..]);
      forall i, j | 0 <= i < j < |s|
        ensures Labels(s)[i] != Labels(s)[j]
      {
        if i == 0 {
          KeySetMember(s[1..], j - 1);
        } else {
          assert Labels(s)[i] == Labels(s[1..])[i - 1] && Labels(s)[j] == Labels(s[1..])[j - 1];
        }
      }
    }
  }

  lemma {:induction false} LookupAt(s: Summary, i: nat)
    requires DistinctKeys(s) && i < |s|
    ensures Lookup(s, s[i].0) == Some(s[i].1)
  {
    if i > 0 {
      KeySetMember(s[1..], i - 1);
      LookupAt(s[1..], i - 1);
    }
  }

  /**
   * The pie's labels and amounts have the same length and line up: each label is a
   * distinct category present, every category present is a label, each amount is
   * its category's total, and the amounts add up to the total shown on the page.
   */
  lemma PieSeries(items: seq<ExpenseItem>)
    ensures var s := Summarize(items);
            && |Labels(s)| == |Values(s)|
            && (forall c :: c in Labels(s) <==> c in Categories(items))
            && (forall i, j :: 0 <= i < j < |s| ==> Labels(s)[i] != Labels(s)[j])
            && (forall i :: 0 <= i < |s| ==> Values(s)[i] == CategoryTotal(items, Labels(s)[i]))
            && Sum(Values(s)) == Total(items)
  {
    var s := Summarize(items);
    SummaryShape(items);
    SumOfValues(s);
    DistinctLabels(s);
    forall c
      ensures c in Labels(s) <==> c in KeySet(s)
    {
      LabelsAreKeys(s, c);
    }
    forall i | 0 <= i < |s|
      ensures Values(s)[i] == CategoryTotal(items, Labels(s)[i])
    {
      LookupAt(s, i);
      SummaryValues(items, s[i].0);
    }
  }

  lemma {:induction false} LabelsAreKeys(s: Summary, c: string)
    ensures c in Labels(s) <==> c in KeySet(s)
  {
    if s != [] {
      LabelsAreKeys(s[1..], c);
      assert Labels(s) == [s[0].0] + Labels(s[1..]);
    }
  }

  /** `expenses.map(exp => exp.title)`. */
  function Titles(items: seq<ExpenseItem>): (r: seq<string>)
    ensures |r| == |items|
  {
    seq(|items|, i requires 0 <= i < |items| => items[i].title)
  }

  /** `expenses.map(exp => exp.amount)`. */
  function Amounts(items: seq<ExpenseItem>): (r: seq<int>)
    ensures |r| == |items|
  {
    seq(|items|, i requires 0 <= i < |items| => items[i].amount)
  }

  /** The bars are the expenses one for one, and their heights add up to the total. */
  lemma {:induction false} BarSeries(items: seq<ExpenseItem>)
    ensures |Titles(items)| == |Amounts(items)| == |items|
    ensures forall i :: 0 <= i < |items| ==> Titles(items)[i] == items[i].title && Amounts(items)[i] == items[i].amount
    ensures Sum(Amounts(items)) == Total(items)
  {
    if items != [] {
      var init := items[..|items| - 1];
      BarSeries(init);
      assert Amounts(items) == Amounts(init) + [items[|items| - 1].amount];
      SumAppend(Amounts(init), items[|items| - 1].amount);
    }
  }

  lemma {:induction false} SumAppend(xs: seq<int>, x: int)
    ensures Sum(xs + [x]) == Sum(xs) + x
  {
    if xs != [] {
      assert (xs + [x])[1..] == xs[1..] + [x];
      SumAppend(xs[1..], x);
    }
  }

  /** Both chart effects return early on an empty list or before the canvas is mounted. */
  predicate DrawsChart(items: seq<ExpenseItem>, canvasMounted: bool) {
    |items| > 0 && canvasMounted
  }

  /** `Math.floor(Math.random() * 255)` for a draw in [0, 1). */
  function Component(draw: real): (c: int)
    requires 0.0 <= draw < 1.0
    ensures 0 <= c <= 254
  {
    (draw * 255.0).Floor
  }

  /** One (r, g, b) colour per category, from three draws each. */
  function Colours(n: nat, draws: seq<real>): (r: seq<(int, int, int)>)
    requires |draws| == 3 * n
    requires forall i :: 0 <= i < |draws| ==> 0.0 <= draws[i] < 1.0
    ensures |r| == n
    ensures forall i :: 0 <= i < n ==>
              0 <= r[i].0 <= 254 && 0 <= r[i].1 <= 254 && 0 <= r[i].2 <= 254
  {
    if n == 0 then []
    else [(Component(draws[0]), Component(draws[1]), Component(draws[2]))] + Colours(n - 1, draws[3..])
  }
}
