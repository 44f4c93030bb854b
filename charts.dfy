// The charts component: the rents it can read, the statistics of the bar
// chart and the three rent categories of the pie chart.

module Charts {
  import opened Js
  import Rents
  import Home

  // ---------------------------------------------------------------------------
  // The rents read from the records

  /** `data.map(apt => Number(apt.loyer))`, given the records' `loyer` fields;
      None stands for NaN. */
  function Numbers(fields: seq<Value>): (ns: seq<Option<real>>)
    ensures |ns| == |fields| && forall i :: 0 <= i < |fields| ==> ns[i] == ToNumber(fields[i])
  {
    seq(|fields|, i requires 0 <= i < |fields| => ToNumber(fields[i]))
  }

  /** `.filter(loyer => !isNaN(loyer))` */
  function NotNaN(ns: seq<Option<real>>): (xs: seq<real>)
    ensures |xs| <= |ns|
  {
    if ns == [] then []
    else NotNaN(ns[..|ns| - 1]) + (if ns[|ns| - 1].Some? then [ns[|ns| - 1].value] else [])
  }

  /** The rents the charts are drawn from. */
  function Loyers(fields: seq<Value>): seq<real>
  {
    NotNaN(Numbers(fields))
  }

  /** The filter keeps the order of the records: the rents of a concatenation
      are the rents of the first part followed by those of the second. */
  lemma {:induction false} NotNaNAppend(a: seq<Option<real>>, b: seq<Option<real>>)
    ensures NotNaN(a + b) == NotNaN(a) + NotNaN(b)
    decreases |b|
  {
    if b == [] {
      assert a + b == a;
    } else {
      var c := a + b;
      var b', last := b[..|b| - 1], b[|b| - 1];
      assert c[..|c| - 1] == a + b';
      assert c[|c| - 1] == last;
      NotNaNAppend(a, b');
    }
  }

  /** One number is kept, NaN is dropped. */
  lemma NotNaNOne(n: Option<real>)
    ensures NotNaN([n]) == if n.Some? then [n.value] else []
  {
    assert [n][..0] == [];
  }

  /** Every kept rent is one of the numbers, and the result is empty exactly
      when every value is NaN. */
  lemma {:induction false} NotNaNComplete(ns: seq<Option<real>>)
    ensures forall x :: x in NotNaN(ns) ==> Some(x) in ns
    ensures NotNaN(ns) == [] <==> forall i :: 0 <= i < |ns| ==> ns[i].None?
    decreases |ns|
  {
    if ns != [] {
      var init := ns[..|ns| - 1];
      NotNaNComplete(init);
      assert forall i :: 0 <= i < |init| ==> init[i] == ns[i];
      assert ns == init + [ns[|ns| - 1]];
    }
  }

  /** Every rent the charts use is Number() of some record's field, and none
      is left when every field is NaN. */
  lemma LoyersFromFields(fields: seq<Value>)
    ensures forall x :: x in Loyers(fields) ==> exists i :: 0 <= i < |fields| && ToNumber(fields[i]) == Some(x)
    ensures Loyers(fields) == [] <==> forall i :: 0 <= i < |fields| ==> ToNumber(fields[i]).None?
  {
    var ns := Numbers(fields);
    NotNaNComplete(ns);
    forall x | x in Loyers(fields) ensures exists i :: 0 <= i < |fields| && ToNumber(fields[i]) == Some(x) {
      var i :| 0 <= i < |ns| && ns[i] == Some(x);
    }
  }

  // ---------------------------------------------------------------------------
  // Categories

  /** A half-open band `[lo, hi)`; no upper end stands for Infinity. */
  datatype Category = Category(lo: real, hi: Option<real>)

  const Categories: seq<Category> :=
    [Category(0.0, Some(1000.0)), Category(1000.0, Some(5000.0)), Category(5000.0, None)]

  const Labels: seq<string> := ["Bas (<1k Ar)", "Moyen (1k-5k Ar)", "Élevé (>5k Ar)"]

  /** `loyer >= cat.min && loyer < cat.max` */
  predicate InCategory(x: real, c: Category)
  {
    c.lo <= x && (c.hi.None? || x < c.hi.value)
  }

  /** The three bands are pairwise disjoint and together hold exactly the
      non-negative rents. */
  lemma CategoriesPartition(x: real)
    ensures forall i, j :: 0 <= i < j < |Categories| ==> !(InCategory(x, Categories[i]) && InCategory(x, Categories[j]))
    ensures (exists i :: 0 <= i < |Categories| && InCategory(x, Categories[i])) <==> x >= 0.0
  {
    if x >= 0.0 {
      var i := if x < 1000.0 then 0 else if x < 5000.0 then 1 else 2;
      assert InCategory(x, Categories[i]);
    }
  }

  /** `loyers.filter(loyer => loyer >= cat.min && loyer < cat.max).length` */
  function CountIn(xs: seq<real>, c: Category): (n: nat)
    ensures n <= |xs|
  {
    if xs == [] then 0
    else CountIn(xs[..|xs| - 1], c) + (if InCategory(xs[|xs| - 1], c) then 1 else 0)
  }

  /** `categoryCounts`, in the order of the categories. */
  function CategoryCounts(xs: seq<real>): (counts: seq<nat>)
    ensures |counts| == |Categories|
    ensures forall i :: 0 <= i < |Categories| ==> counts[i] == CountIn(xs, Categories[i])
  {
    seq(|Categories|, i requires 0 <= i < |Categories| => CountIn(xs, Categories[i]))
  }

  /** The number of non-negative rents. */
  function CountNonNegative(xs: seq<real>): (n: nat)
    ensures n <= |xs|
  {
    if xs == [] then 0
    else CountNonNegative(xs[..|xs| - 1]) + (if xs[|xs| - 1] >= 0.0 then 1 else 0)
  }

  /** The three counts add up to the number of non-negative rents; a
      negative rent is counted nowhere. */
  lemma {:induction false} CountsSum(xs: seq<real>)
    ensures var counts := CategoryCounts(xs);
            counts[0] + counts[1] + counts[2] == CountNonNegative(xs)
    decreases |xs|
  {
    if xs != [] {
      var init := xs[..|xs| - 1];
      CountsSum(init);
      CategoriesPartition(xs[|xs| - 1]);
      var x := xs[|xs| - 1];
      assert InCategory(x, Categories[0]) <==> 0.0 <= x < 1000.0;
      assert InCategory(x, Categories[1]) <==> 1000.0 <= x < 5000.0;
      assert InCategory(x, Categories[2]) <==> 5000.0 <= x;
    }
  }

  /** A rent of exactly 5000 falls in the high band here, while the table's
      label for it is moderate. */
  lemma FiveThousandDisagrees()
    ensures InCategory(5000.0, Categories[2]) && !InCategory(5000.0, Categories[1])
    ensures Home.Observe(5000.0) == Home.Moyen
  {
  }

  /** Apart from 5000, a non-negative rent's band is the one its label
      names. */
  lemma BandsMatchLabels(x: real)
    requires x >= 0.0 && x != 5000.0
    ensures InCategory(x, Categories[0]) <==> Home.Observe(x) == Home.Bas
    ensures InCategory(x, Categories[1]) <==> Home.Observe(x) == Home.Moyen
    ensures InCategory(x, Categories[2]) <==> Home.Observe(x) == Home.Eleve
  {
  }

  // ---------------------------------------------------------------------------
  // What the component shows

  datatype View =
    | NoData
    | InvalidRents
    | Shown(total: real, min: real, max: real, mean: real, counts: seq<nat>, bars: seq<real>)

  /** The component for its `data` prop, given as the records' `loyer`
      fields; None stands for a value that is not an array. */
  function Render(data: Option<seq<Value>>): View
  {
    if data.None? || data.value == [] then NoData
    else if Loyers(data.value) == [] then InvalidRents
    else Statistics(Loyers(data.value))
  }

  /** The bar chart and the pie chart for a non-empty list of rents. */
  function Statistics(xs: seq<real>): View
    requires xs != []
  {
    var lo, mean, hi := Rents.Min(xs), Rents.Mean(xs), Rents.Max(xs);
    Shown(Rents.Sum(xs), lo, hi, mean, CategoryCounts(xs), [lo, mean, hi])
  }

  /** The sum, the extremes and the mean of the rents, the bars in the order
      minimum, mean, maximum, which is ascending, and category counts that add
      up to the non-negative rents. */
  lemma StatisticsCorrect(xs: seq<real>)
    requires xs != []
    ensures var v := Statistics(xs);
            && v.total == Rents.Sum(xs)
            && (forall i :: 0 <= i < |xs| ==> v.min <= xs[i] <= v.max)
            && v.min in xs && v.max in xs
            && v.mean == Rents.Mean(xs)
            && v.bars == [v.min, v.mean, v.max]
            && v.min <= v.mean <= v.max
            && v.counts[0] + v.counts[1] + v.counts[2] == CountNonNegative(xs)
  {
    Rents.MeanBetween(xs);
    CountsSum(xs);
  }

  /** No data for a missing or empty list, a warning when no rent is a
      number, the charts otherwise. */
  lemma RenderCases(data: Option<seq<Value>>)
    ensures Render(data) == NoData <==> data.None? || data.value == []
    ensures Render(data) == InvalidRents
            <==> data.Some? && data.value != [] && forall i :: 0 <= i < |data.value| ==> ToNumber(data.value[i]).None?
    ensures Render(data).Shown? ==> Render(data) == Statistics(Loyers(data.value))
  {
    if data.Some? && data.value != [] {
      LoyersFromFields(data.value);
    }
  }
}
