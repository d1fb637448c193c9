/** The computations of the dashboard page (public/app.js) that do not
    touch the DOM: formatting of dates, the per-day aggregation of a sales
    listing behind the statistics cards, the line chart and the sales
    history, the payload of the sales form, and the arithmetic of the
    target display. A JavaScript object used as a dictionary is a `map`
    together with the order of its keys, which for date keys is the order
    in which they were first set. */
module Client {
  import opened Wrappers
  import Text
  import opened Seqs
  import opened Ledger
  import Server

  // ---------------------------------------------------------------------
  // formatDate

  /** An element of the result of `split`, or the text `undefined` that a
      template literal prints for a missing one. */
  function Part(parts: seq<string>, i: nat): string {
    if i < |parts| then parts[i] else "undefined"
  }

  /** `formatDate`: `YYYY-MM-DD` becomes `DD/MM/YYYY`; a missing or empty
      argument gives the empty string. */
  function FormatDate(s: Option<string>): (r: string)
    ensures r == "" <==> !Truthy(s)
  {
    if !Truthy(s) then ""
    else
      var parts := Text.Split(s.value, '-');
      Part(parts, 2) + "/" + Part(parts, 1) + "/" + Part(parts, 0)
  }

  /** An ISO date is rewritten day first. */
  lemma FormatIsoDate(y: string, m: string, d: string)
    requires '-' !in y && '-' !in m && '-' !in d
    ensures FormatDate(Some(y + "-" + m + "-" + d)) == d + "/" + m + "/" + y
  {
    var iso := y + "-" + m + "-" + d;
    assert Text.Split(iso, '-') == [y, m, d] by {
      IsoJoin(y, m, d);
      Text.SplitJoin([y, m, d], '-');
    }
  }

  lemma IsoJoin(y: string, m: string, d: string)
    ensures Text.Join([y, m, d], '-') == y + "-" + m + "-" + d
  {
    assert [m, d][1..] == [d];
    assert Text.Join([m, d], '-') == m + "-" + d;
    assert [y, m, d][1..] == [m, d];
  }

  // ---------------------------------------------------------------------
  // Specification of the per-day aggregation

  function SaleDate(v: SaleView): Date { v.sale.date }

  ghost predicate NoDuplicates(r: seq<Date>) {
    forall j, k :: 0 <= j < k < |r| ==> r[j] != r[k]
  }

  /** The distinct dates of a listing, in order of first appearance. */
  function DistinctDates(s: seq<SaleView>): seq<Date> {
    if s == [] then []
    else
      var d := DistinctDates(s[..|s| - 1]);
      var x := s[|s| - 1].sale.date;
      if x in d then d else d + [x]
  }

  /** "The sale is of date `d`". */
  function OnDate(d: Date): SaleView -> bool {
    v => SaleDate(v) == d
  }

  /** The sales of one date, in listing order. */
  function OfDate(s: seq<SaleView>, d: Date): seq<SaleView> {
    Filter(s, OnDate(d))
  }

  /** The total of the sales of one date. */
  function DayTotal(s: seq<SaleView>, d: Date): real {
    Sum(OfDate(s, d), ViewAmount)
  }

  /** The day totals of a listing, as a function of the date. */
  function DayTotals(s: seq<SaleView>): Date -> real {
    d => DayTotal(s, d)
  }

  lemma DayTotalSnoc(s: seq<SaleView>, x: SaleView, d: Date)
    ensures DayTotal(s + [x], d) == DayTotal(s, d) + (if x.sale.date == d then x.sale.amount else 0.0)
  {
    FilterSnoc(s, x, OnDate(d));
    if x.sale.date == d {
      SumSnoc(OfDate(s, d), x, ViewAmount);
    } else {
      assert OfDate(s + [x], d) == OfDate(s, d) + [];
      assert OfDate(s, d) + [] == OfDate(s, d);
    }
  }

  lemma DistinctDatesSnoc(s: seq<SaleView>, x: SaleView)
    ensures DistinctDates(s + [x]) == if x.sale.date in DistinctDates(s) then DistinctDates(s) else DistinctDates(s) + [x.sale.date]
  {
    assert (s + [x])[..|s + [x]| - 1] == s;
  }

  /** The distinct dates are duplicate-free, and a date is among them
      exactly when the listing holds a sale of that date. */
  lemma {:induction false} DistinctDatesSpec(s: seq<SaleView>)
    ensures NoDuplicates(DistinctDates(s))
    ensures forall d :: d in DistinctDates(s) <==> OfDate(s, d) != []
  {
    if s != [] {
      var init := s[..|s| - 1];
      var x := s[|s| - 1];
      assert s == init + [x];
      DistinctDatesSpec(init);
      var ds := DistinctDates(init);
      assert DistinctDates(s) == if x.sale.date in ds then ds else ds + [x.sale.date];
      if x.sale.date !in ds {
        var r := ds + [x.sale.date];
        forall j, k | 0 <= j < k < |r|
          ensures r[j] != r[k]
        {
          if k == |ds| {
            assert r[j] == ds[j] && r[k] == x.sale.date;
            assert ds[j] in ds;
          } else {
            assert r[j] == ds[j] && r[k] == ds[k];
            assert 0 <= j < k < |ds|;
            assert ds[j] != ds[k];
          }
        }
      }
      forall d
        ensures OfDate(s, d) == OfDate(init, d) + (if x.sale.date == d then [x] else [])
      {
        FilterSnoc(init, x, OnDate(d));
      }
    }
  }

  /** Every sale's date is among the distinct dates. */
  lemma DateListed(s: seq<SaleView>, i: nat)
    requires i < |s|
    ensures s[i].sale.date in DistinctDates(s)
  {
    DistinctDatesSpec(s);
    assert OnDate(s[i].sale.date)(s[i]);
    assert s[i] in OfDate(s, s[i].sale.date);
  }

  /** The day totals add up to the total of the listing. */
  lemma {:induction false} DayTotalsSumToTotal(s: seq<SaleView>)
    ensures Sum(DistinctDates(s), DayTotals(s)) == Sum(s, ViewAmount)
  {
    if s != [] {
      var init := s[..|s| - 1];
      var x := s[|s| - 1];
      assert s == init + [x];
      DayTotalsSumToTotal(init);
      SumSnoc(init, x, ViewAmount);
      DistinctDatesSnoc(init, x);
      var ds := DistinctDates(init);
      var k := x.sale.date;
      DistinctDatesSpec(init);
      forall d | d in ds
        ensures DayTotals(s)(d) == DayTotals(init)(d) + (if d == k then x.sale.amount else 0.0)
      {
        DayTotalSnoc(init, x, d);
      }
      SumShift(ds, DayTotals(init), DayTotals(s), k, x.sale.amount);
      if k !in ds {
        SumSnoc(ds, k, DayTotals(s));
        DayTotalSnoc(init, x, k);
      }
    }
  }

  /** Raising the value of one key of a duplicate-free sequence by `a`
      raises the sum by `a` if the key occurs, and leaves it otherwise. */
  lemma {:induction false} SumShift(ks: seq<Date>, f: Date -> real, g: Date -> real, k: Date, a: real)
    requires NoDuplicates(ks)
    requires forall x :: x in ks ==> g(x) == f(x) + (if x == k then a else 0.0)
    ensures Sum(ks, g) == Sum(ks, f) + (if k in ks then a else 0.0)
  {
    if ks != [] {
      var tail := ks[1..];
      assert forall j :: 0 <= j < |tail| ==> tail[j] == ks[j + 1];
      SumShift(tail, f, g, k, a);
      assert ks[0] !in tail by {
        forall l | 0 <= l < |tail|
          ensures tail[l] != ks[0]
        {
          assert tail[l] == ks[l + 1];
        }
      }
    }
  }

  // ---------------------------------------------------------------------
  // renderStatsCards / updateCharts: totals per date

  /** `dates` and `byDate` are what the `forEach` below has built after
      the sales `s`: the dates in order of first appearance, and each date
      mapped to its total. */
  ghost predicate Tallied(s: seq<SaleView>, dates: seq<Date>, byDate: map<Date, real>) {
    && dates == DistinctDates(s)
    && (forall d :: d in byDate <==> d in dates)
    && (forall d :: d in byDate ==> byDate[d] == DayTotal(s, d))
  }

  /** `salesByDate` after the callback of the `forEach` for sale `x`. */
  function WithAmount(byDate: map<Date, real>, x: SaleView): map<Date, real> {
    var d := x.sale.date;
    byDate[d := (if d in byDate then byDate[d] else 0.0) + x.sale.amount]
  }

  /** The dictionary part of the `forEach` callback: a date that is absent
      or whose total is 0 is (re)set to 0, then the amount is added. */
  method AddAmount(byDate: map<Date, real>, sale: SaleView) returns (r: map<Date, real>)
    ensures r == WithAmount(byDate, sale)
  {
    r := byDate;
    var d := sale.sale.date;
    if d !in r || r[d] == 0.0 {
      r := r[d := 0.0];
    }
    r := r[d := r[d] + sale.sale.amount];
  }

  lemma TalliedIntro(s: seq<SaleView>, dates: seq<Date>, byDate: map<Date, real>)
    requires dates == DistinctDates(s)
    requires forall d :: d in byDate <==> d in dates
    requires forall d :: d in byDate ==> byDate[d] == DayTotal(s, d)
    ensures Tallied(s, dates, byDate)
  {
  }

  /** One more sale adds its amount to its date, which is appended to the
      dates when it is new. */
  lemma {:induction false} TallyStep(s: seq<SaleView>, x: SaleView, dates: seq<Date>, byDate: map<Date, real>)
    requires Tallied(s, dates, byDate)
    ensures Tallied(s + [x], if x.sale.date in byDate then dates else dates + [x.sale.date], WithAmount(byDate, x))
  {
    var d := x.sale.date;
    var m := WithAmount(byDate, x);
    var dates' := if d in byDate then dates else dates + [d];
    assert dates' == DistinctDates(s + [x]) by {
      DistinctDatesSnoc(s, x);
    }
    forall e | e in m
      ensures m[e] == DayTotal(s + [x], e)
    {
      DayTotalSnoc(s, x, e);
      if e == d && d !in byDate {
        DistinctDatesSpec(s);
        assert OfDate(s, d) == [];
      }
    }
    TalliedIntro(s + [x], dates', m);
  }

  /** The `forEach` that fills `salesByDate` and `totalFiltered`. The
      dictionary's keys are exactly the listing's dates, in order of first
      appearance, each mapped to that date's total. */
  method TotalsByDate(sales: seq<SaleView>) returns (total: real, dates: seq<Date>, byDate: map<Date, real>)
    ensures total == Sum(sales, ViewAmount)
    ensures dates == DistinctDates(sales)
    ensures forall d :: d in byDate <==> d in dates
    ensures forall d :: d in byDate ==> byDate[d] == DayTotal(sales, d)
  {
    total := 0.0;
    dates := [];
    byDate := map[];
    for i := 0 to |sales|
      invariant total == Sum(sales[..i], ViewAmount)
      invariant Tallied(sales[..i], dates, byDate)
    {
      var sale := sales[i];
      assert sales[..i + 1] == sales[..i] + [sale];
      SumSnoc(sales[..i], sale, ViewAmount);
      TallyStep(sales[..i], sale, dates, byDate);
      total := total + sale.sale.amount;
      if sale.sale.date !in byDate {
        dates := dates + [sale.sale.date];
      }
      byDate := AddAmount(byDate, sale);
    }
    assert sales[..|sales|] == sales;
  }

  /** The best-day loop over `Object.entries(salesByDate)`: it moves only
      on a strictly greater total, so it ends on the first date holding the
      largest total, or stays at `('', 0)` when no total is positive. */
  method BestDay(dates: seq<Date>, byDate: map<Date, real>) returns (date: Date, value: real)
    requires forall j :: 0 <= j < |dates| ==> dates[j] in byDate
    ensures value >= 0.0
    ensures forall j :: 0 <= j < |dates| ==> byDate[dates[j]] <= value
    ensures value == 0.0 ==> date == ""
    ensures value > 0.0 ==> exists k :: (0 <= k < |dates| && dates[k] == date && byDate[date] == value
      && forall j :: 0 <= j < k ==> byDate[dates[j]] < value)
  {
    date, value := "", 0.0;
    ghost var at := -1;
    for i := 0 to |dates|
      invariant value >= 0.0
      invariant forall j :: 0 <= j < i ==> byDate[dates[j]] <= value
      invariant value == 0.0 ==> date == "" && at == -1
      invariant value > 0.0 ==> 0 <= at < i && dates[at] == date && byDate[date] == value
      invariant value > 0.0 ==> forall j :: 0 <= j < at ==> byDate[dates[j]] < value
    {
      if byDate[dates[i]] > value {
        date, value := dates[i], byDate[dates[i]];
        at := i;
      }
    }
  }

  /** The statistics cards of the filtered listing. */
  datatype StatsCards = StatsCards(totalFiltered: real, avgDaily: real, bestDay: (Date, real), bestProfile: Option<ProfileTotal>)

  /** `profileId === 'all' && salesByProfile.length > 0 ? salesByProfile[0] : null`. */
  function BestProfile(filter: string, ranking: seq<ProfileTotal>): (r: Option<ProfileTotal>)
    ensures r.Some? <==> filter == "all" && ranking != []
    ensures r.Some? ==> r.value == ranking[0]
  {
    if filter == "all" && |ranking| > 0 then Some(ranking[0]) else None
  }

  /** On the ranking the server sends, the profile shown as best has the
      largest total. */
  lemma BestProfileHasLargestTotal(profiles: seq<Profile>, sales: seq<Sale>, lo: Option<Date>, hi: Option<Date>, filter: string)
    ensures var ranking := SalesByProfile(profiles, sales, lo, hi);
      var best := BestProfile(filter, ranking);
      best.Some? ==> forall t :: t in ranking ==> t.total <= best.value.total
  {
    var ranking := SalesByProfile(profiles, sales, lo, hi);
    SalesByProfileSpec(profiles, sales, lo, hi);
    forall t | t in ranking && ranking != []
      ensures t.total <= ranking[0].total
    {
      var j :| 0 <= j < |ranking| && ranking[j] == t;
      if j > 0 {
        assert TotalDesc(ranking[0], ranking[j]);
      }
    }
  }

  /** `days` days at `a` each add up to `total`. */
  predicate IsMean(a: real, total: real, days: nat) {
    a * (days as real) == total
  }

  /** `daysCount > 0 ? totalFiltered / daysCount : 0`: the average per
      day with sales, so that the days at the average add up to the total. */
  function AverageDaily(total: real, days: nat): (a: real)
    ensures days > 0 ==> IsMean(a, total, days)
    ensures days == 0 ==> a == 0.0
  {
    if days > 0 then total / (days as real) else 0.0
  }

  /** `date` is a date of the listing whose total is `value`, and every
      date listed before it has a smaller total. */
  ghost predicate FirstWithTotal(sales: seq<SaleView>, date: Date, value: real) {
    exists k :: 0 <= k < |DistinctDates(sales)| && DistinctDates(sales)[k] == date && DayTotal(sales, date) == value
      && forall j :: 0 <= j < k ==> DayTotal(sales, DistinctDates(sales)[j]) < value
  }

  /** What BestDay promises about the dictionary, read as a statement about
      the listing's day totals. */
  lemma BestDayOfListing(sales: seq<SaleView>, dates: seq<Date>, byDate: map<Date, real>, date: Date, value: real)
    requires dates == DistinctDates(sales)
    requires forall j :: 0 <= j < |dates| ==> dates[j] in byDate && byDate[dates[j]] == DayTotal(sales, dates[j])
    requires forall j :: 0 <= j < |dates| ==> byDate[dates[j]] <= value
    requires value > 0.0 ==> exists k :: (0 <= k < |dates| && dates[k] == date && byDate[date] == value
      && forall j :: 0 <= j < k ==> byDate[dates[j]] < value)
    ensures forall d :: d in DistinctDates(sales) ==> DayTotal(sales, d) <= value
    ensures value > 0.0 ==> FirstWithTotal(sales, date, value)
  {
    forall d | d in dates
      ensures DayTotal(sales, d) <= value
    {
      var j :| 0 <= j < |dates| && dates[j] == d;
    }
    if value > 0.0 {
      var k :| 0 <= k < |dates| && dates[k] == date && byDate[date] == value
        && forall j :: 0 <= j < k ==> byDate[dates[j]] < value;
      assert forall j :: 0 <= j < k ==> DayTotal(sales, dates[j]) < value;
    }
  }

  /** `renderStatsCards`: nothing for an empty listing; otherwise the
      total, the average per distinct date, the best day and, with no
      profile filter, the first profile of the ranking. The best day is
      the first date, in order of first appearance, holding the largest
      total, or `('', 0)` when no total is positive. */
  method RenderStatsCards(sales: seq<SaleView>, ranking: seq<ProfileTotal>, filter: string) returns (cards: Option<StatsCards>)
    ensures cards.None? <==> sales == []
    ensures cards.Some? ==> cards.value.totalFiltered == Sum(sales, ViewAmount)
    ensures cards.Some? ==> cards.value.totalFiltered == Sum(DistinctDates(sales), DayTotals(sales))
    ensures cards.Some? ==> IsMean(cards.value.avgDaily, cards.value.totalFiltered, |DistinctDates(sales)|)
    ensures cards.Some? ==> cards.value.bestDay.1 >= 0.0
    ensures cards.Some? ==> forall d :: d in DistinctDates(sales) ==> DayTotal(sales, d) <= cards.value.bestDay.1
    ensures cards.Some? && cards.value.bestDay.1 > 0.0 ==> FirstWithTotal(sales, cards.value.bestDay.0, cards.value.bestDay.1)
    ensures cards.Some? && cards.value.bestDay.1 == 0.0 ==> cards.value.bestDay.0 == ""
    ensures cards.Some? ==> cards.value.bestProfile == BestProfile(filter, ranking)
  {
    if |sales| == 0 {
      return None;
    }
    var total, dates, byDate := TotalsByDate(sales);
    DateListed(sales, 0);
    var avg := AverageDaily(total, |dates|);
    var bestDate, bestValue := BestDay(dates, byDate);
    BestDayOfListing(sales, dates, byDate, bestDate, bestValue);
    DayTotalsSumToTotal(sales);
    cards := Some(StatsCards(total, avg, (bestDate, bestValue), BestProfile(filter, ranking)));
  }

  /** `Object.keys(salesByDate).sort()`: ascending text order. */
  predicate DateLe(a: Date, b: Date) { Text.LessEq(a, b) }

  ghost predicate Ascending(r: seq<Date>) {
    forall j, k :: 0 <= j < k < |r| ==> Text.Less(r[j], r[k])
  }

  /** `updateCharts`: the line chart's labels are the dates of the
      listing's sales in strictly ascending order, hence each once, and
      each point is the total of its date. */
  method LineSeries(sales: seq<SaleView>) returns (labels: seq<Date>, data: seq<real>)
    ensures forall d :: d in labels <==> OfDate(sales, d) != []
    ensures Ascending(labels)
    ensures |data| == |labels|
    ensures forall j :: 0 <= j < |labels| ==> data[j] == DayTotal(sales, labels[j])
  {
    var total, dates, byDate := TotalsByDate(sales);
    ChartLabels(sales, dates);
    labels := SortBy(dates, DateLe);
    data := [];
    for j := 0 to |labels|
      invariant |data| == j
      invariant forall l :: 0 <= l < j ==> data[l] == DayTotal(sales, labels[l])
    {
      data := data + [byDate[labels[j]]];
    }
  }

  /** The sorted distinct dates are ascending and are the dates of the
      listing's sales. */
  lemma ChartLabels(sales: seq<SaleView>, dates: seq<Date>)
    requires dates == DistinctDates(sales)
    ensures Ascending(SortBy(dates, DateLe))
    ensures forall d :: d in SortBy(dates, DateLe) <==> d in dates
    ensures forall d :: d in SortBy(dates, DateLe) <==> OfDate(sales, d) != []
  {
    DistinctDatesSpec(sales);
    SortedDates(dates);
    var labels := SortBy(dates, DateLe);
    forall d
      ensures d in labels <==> d in dates
    {
      assert d in labels <==> d in multiset(labels);
      assert d in dates <==> d in multiset(dates);
    }
  }

  function Id(d: Date): Date { d }

  /** Sorting distinct dates gives a strictly ascending sequence. */
  lemma SortedDates(dates: seq<Date>)
    requires NoDuplicates(dates)
    ensures Ascending(SortBy(dates, DateLe))
  {
    var r := SortBy(dates, DateLe);
    forall a: Date, b: Date
      ensures DateLe(a, b) || DateLe(b, a)
    {
      LessEqTotal(a, b);
    }
    forall a: Date, b: Date, c: Date | DateLe(a, b) && DateLe(b, c)
      ensures DateLe(a, c)
    {
      LessEqTransitive(a, b, c);
    }
    SortBySorted(dates, DateLe);
    assert DistinctKeys(dates, Id) by {
      forall j, k | 0 <= j < k < |dates|
        ensures Id(dates[j]) != Id(dates[k])
      {
      }
    }
    SortByDistinctKeys(dates, DateLe, Id);
    forall j, k | 0 <= j < k < |r|
      ensures Text.Less(r[j], r[k])
    {
      assert Id(r[j]) != Id(r[k]);
    }
  }

  // ---------------------------------------------------------------------
  // loadSalesHistory

  /** One day of the history table. */
  datatype DayGroup = DayGroup(date: Date, notes: Option<string>, sales: seq<SaleView>, total: real)

  /** The group of date `d`: its sales in listing order, their total, and
      the notes of the first of them. */
  function GroupOf(s: seq<SaleView>, d: Date): DayGroup
    requires OfDate(s, d) != []
  {
    DayGroup(d, OfDate(s, d)[0].sale.notes, OfDate(s, d), DayTotal(s, d))
  }

  lemma GroupOfSnoc(s: seq<SaleView>, x: SaleView, d: Date)
    requires OfDate(s, d) != []
    ensures OfDate(s + [x], d) != []
    ensures GroupOf(s + [x], d) == if x.sale.date == d
      then GroupOf(s, d).(sales := GroupOf(s, d).sales + [x], total := GroupOf(s, d).total + x.sale.amount)
      else GroupOf(s, d)
  {
    FilterSnoc(s, x, OnDate(d));
    DayTotalSnoc(s, x, d);
  }

  /** `order` and `byDate` are what the grouping `forEach` has built
      after the sales `s`: the dates in order of first appearance, and each
      date mapped to its group. */
  ghost predicate Grouped(s: seq<SaleView>, order: seq<Date>, byDate: map<Date, DayGroup>) {
    && order == DistinctDates(s)
    && (forall d :: d in byDate <==> d in order)
    && (forall d :: d in byDate ==> OfDate(s, d) != [] && byDate[d] == GroupOf(s, d))
  }

  /** `byDate` after the body of the grouping `forEach` for sale `x`. */
  function WithSale(byDate: map<Date, DayGroup>, x: SaleView): map<Date, DayGroup> {
    var d := x.sale.date;
    var g := if d in byDate then byDate[d] else DayGroup(d, x.sale.notes, [], 0.0);
    byDate[d := g.(sales := g.sales + [x], total := g.total + x.sale.amount)]
  }

  /** The callback of the grouping `forEach`: opens a group for the
      sale's date when there is none, with the sale's notes, then appends
      the sale to it and adds its amount to the group's total. */
  method GroupSale(byDate: map<Date, DayGroup>, sale: SaleView) returns (r: map<Date, DayGroup>)
    ensures r == WithSale(byDate, sale)
  {
    r := byDate;
    var d := sale.sale.date;
    if d !in r {
      r := r[d := DayGroup(d, sale.sale.notes, [], 0.0)];
    }
    var g := r[d];
    r := r[d := g.(sales := g.sales + [sale], total := g.total + sale.sale.amount)];
  }

  /** One more sale opens a group for its date when there is none yet,
      with that sale's notes, then joins the group and adds to its total. */
  lemma {:induction false} GroupStep(s: seq<SaleView>, x: SaleView, order: seq<Date>, byDate: map<Date, DayGroup>)
    requires Grouped(s, order, byDate)
    ensures Grouped(s + [x], if x.sale.date in byDate then order else order + [x.sale.date], WithSale(byDate, x))
  {
    var d := x.sale.date;
    var m := WithSale(byDate, x);
    var order' := if d in byDate then order else order + [d];
    assert order' == DistinctDates(s + [x]) by {
      DistinctDatesSnoc(s, x);
    }
    if d !in byDate {
      DistinctDatesSpec(s);
      FirstOfDate(s, x);
    }
    forall e | e in byDate
      ensures OfDate(s + [x], e) != [] && m[e] == GroupOf(s + [x], e)
    {
      GroupOfSnoc(s, x, e);
    }
    GroupedIntro(s + [x], order', m);
  }

  lemma GroupedIntro(s: seq<SaleView>, order: seq<Date>, byDate: map<Date, DayGroup>)
    requires order == DistinctDates(s)
    requires forall e :: e in byDate <==> e in order
    requires forall e :: e in byDate ==> OfDate(s, e) != [] && byDate[e] == GroupOf(s, e)
    ensures Grouped(s, order, byDate)
  {
  }

  /** The first sale of a date opens its group. */
  lemma FirstOfDate(s: seq<SaleView>, x: SaleView)
    requires OfDate(s, x.sale.date) == []
    ensures OfDate(s + [x], x.sale.date) == [x]
    ensures GroupOf(s + [x], x.sale.date) == DayGroup(x.sale.date, x.sale.notes, [x], 0.0 + x.sale.amount)
  {
    FilterSnoc(s, x, OnDate(x.sale.date));
    DayTotalSnoc(s, x, x.sale.date);
  }

  /** The groups in reverse order of first appearance: group `j` is the
      group of the `j`-th date counted from the last one to appear. */
  ghost predicate ReverseFirstSeen(s: seq<SaleView>, groups: seq<DayGroup>) {
    var dates := DistinctDates(s);
    && |groups| == |dates|
    && forall j :: 0 <= j < |groups| ==>
         OfDate(s, dates[|dates| - 1 - j]) != [] && groups[j] == GroupOf(s, dates[|dates| - 1 - j])
  }

  /** The grouping `forEach` of `loadSalesHistory`: `byDate` maps each
      date of the listing to its group, and `order` holds the dates in the
      order their groups were created. */
  method GroupByDate(sales: seq<SaleView>) returns (order: seq<Date>, byDate: map<Date, DayGroup>)
    ensures Grouped(sales, order, byDate)
  {
    order := [];
    byDate := map[];
    for i := 0 to |sales|
      invariant Grouped(sales[..i], order, byDate)
    {
      var sale := sales[i];
      assert sales[..i + 1] == sales[..i] + [sale];
      GroupStep(sales[..i], sale, order, byDate);
      if sale.sale.date !in byDate {
        order := order + [sale.sale.date];
      }
      byDate := GroupSale(byDate, sale);
    }
    assert sales[..|sales|] == sales;
  }

  /** The grouping of `loadSalesHistory`, rendered in reverse: one group
      per distinct date, in reverse order of first appearance, each holding
      that date's sales in listing order, their total, and the notes of the
      first of them. */
  method HistoryGroups(sales: seq<SaleView>) returns (groups: seq<DayGroup>)
    ensures ReverseFirstSeen(sales, groups)
  {
    var order, byDate := GroupByDate(sales);
    GroupedKeys(sales, order, byDate);
    groups := ValuesReversed(order, byDate);
    Reversed(sales, order, byDate, groups);
  }

  /** `Object.values(byDate).reverse()`, where `order` is the order of the
      keys. */
  method ValuesReversed(order: seq<Date>, byDate: map<Date, DayGroup>) returns (groups: seq<DayGroup>)
    requires forall j :: 0 <= j < |order| ==> order[j] in byDate
    ensures |groups| == |order|
    ensures forall l :: 0 <= l < |groups| ==> groups[l] == byDate[order[|order| - 1 - l]]
  {
    groups := [];
    for j := 0 to |order|
      invariant |groups| == j
      invariant forall l :: 0 <= l < j ==> groups[l] == byDate[order[|order| - 1 - l]]
    {
      groups := groups + [byDate[order[|order| - 1 - j]]];
    }
  }

  lemma GroupedKeys(s: seq<SaleView>, order: seq<Date>, byDate: map<Date, DayGroup>)
    requires Grouped(s, order, byDate)
    ensures forall j :: 0 <= j < |order| ==> order[j] in byDate
  {
  }

  /** Listing the groups in reverse key order lists them in reverse order
      of their dates' first appearance. */
  lemma Reversed(s: seq<SaleView>, order: seq<Date>, byDate: map<Date, DayGroup>, groups: seq<DayGroup>)
    requires Grouped(s, order, byDate)
    requires |groups| == |order|
    requires forall l :: 0 <= l < |groups| ==> groups[l] == byDate[order[|order| - 1 - l]]
    ensures ReverseFirstSeen(s, groups)
  {
    var n := |order|;
    forall j | 0 <= j < |groups|
      ensures OfDate(s, order[n - 1 - j]) != [] && groups[j] == GroupOf(s, order[n - 1 - j])
    {
      assert order[n - 1 - j] in byDate;
    }
  }

  /** Sales in non-decreasing date order. */
  ghost predicate DatesInOrder(s: seq<SaleView>) {
    forall i, j :: 0 <= i < j < |s| ==> Text.LessEq(s[i].sale.date, s[j].sale.date)
  }

  /** getSalesByDateRange (`ORDER BY ds.date, p.name`) lists its sales in
      date order. */
  lemma ListingInDateOrder(profiles: seq<Profile>, sales: seq<Sale>, lo: Date, hi: Date, profileId: Option<int>)
    ensures DatesInOrder(SalesByDateRange(profiles, sales, lo, hi, profileId))
  {
    var r := SalesByDateRange(profiles, sales, lo, hi, profileId);
    SalesByDateRangeSpec(profiles, sales, lo, hi, profileId);
    forall i, j | 0 <= i < j < |r|
      ensures Text.LessEq(r[i].sale.date, r[j].sale.date)
    {
      assert DateThenName(r[i], r[j]);
    }
  }

  /** On a listing in date order, first appearance is date order: the
      distinct dates ascend strictly. */
  lemma {:induction false} DistinctDatesAscending(s: seq<SaleView>)
    requires DatesInOrder(s)
    ensures Ascending(DistinctDates(s))
  {
    if s != [] {
      var init := s[..|s| - 1];
      var x := s[|s| - 1];
      assert s == init + [x];
      assert DatesInOrder(init) by {
        forall i, j | 0 <= i < j < |init|
          ensures Text.LessEq(init[i].sale.date, init[j].sale.date)
        {
          assert init[i] == s[i] && init[j] == s[j];
        }
      }
      DistinctDatesAscending(init);
      DistinctDatesSnoc(init, x);
      var ds := DistinctDates(init);
      if x.sale.date !in ds {
        DistinctDatesSpec(init);
        forall e | e in ds
          ensures Text.Less(e, x.sale.date)
        {
          var y := OfDate(init, e)[0];
          FilterMembers(init, OnDate(e), y);
          var i :| 0 <= i < |init| && init[i] == y;
          assert s[i] == y;
        }
        AscendingSnoc(ds, x.sale.date);
      }
    }
  }

  lemma AscendingSnoc(ds: seq<Date>, d: Date)
    requires Ascending(ds)
    requires forall e :: e in ds ==> Text.Less(e, d)
    ensures Ascending(ds + [d])
  {
    var r := ds + [d];
    forall j, k | 0 <= j < k < |r|
      ensures Text.Less(r[j], r[k])
    {
      assert r[j] == ds[j] && ds[j] in ds;
      if k < |ds| {
        assert r[k] == ds[k];
      }
    }
  }

  /** On a listing in date order, as the history loads it, the reversed
      groups are newest first: their dates descend strictly. */
  lemma NewestFirst(s: seq<SaleView>, groups: seq<DayGroup>)
    requires DatesInOrder(s)
    requires ReverseFirstSeen(s, groups)
    ensures forall j, k :: 0 <= j < k < |groups| ==> Text.Less(groups[k].date, groups[j].date)
  {
    DistinctDatesAscending(s);
    var dates := DistinctDates(s);
    var n := |dates|;
    forall j, k | 0 <= j < k < |groups|
      ensures Text.Less(groups[k].date, groups[j].date)
    {
      assert groups[k].date == dates[n - 1 - k] && groups[j].date == dates[n - 1 - j];
    }
  }

  // ---------------------------------------------------------------------
  // saveSales

  /** One element of the payload: `{profileId, amount}`. */
  datatype PayloadItem = PayloadItem(profileId: int, amount: real)

  /** The request body of `saveSales`. */
  datatype SalesRequest = SalesRequest(date: Date, sales: seq<PayloadItem>, notes: string)

  /** `saveSales`: one element per loaded profile, in the order of
      `profiles`, with `parseFloat(input) || 0` as amount, and the notes
      trimmed. `inputFor` reads the form field of a profile. */
  method BuildSalesRequest(date: Date, notes: string, profiles: seq<Profile>, inputFor: int -> string,
                           parse: string -> Option<real>) returns (req: SalesRequest)
    ensures req.date == date && req.notes == Text.Trim(notes)
    ensures |req.sales| == |profiles|
    ensures forall j :: 0 <= j < |profiles| ==> req.sales[j].profileId == profiles[j].id
    ensures forall j :: 0 <= j < |profiles| ==> req.sales[j].amount == parse(inputFor(profiles[j].id)).GetOr(0.0)
    ensures forall j :: 0 <= j < |profiles| && parse(inputFor(profiles[j].id)).None? ==> req.sales[j].amount == 0.0
  {
    var items: seq<PayloadItem> := [];
    for i := 0 to |profiles|
      invariant |items| == i
      invariant forall j :: 0 <= j < i ==> items[j] == PayloadItem(profiles[j].id, parse(inputFor(profiles[j].id)).GetOr(0.0))
    {
      var amount := Server.Coerced(Some(inputFor(profiles[i].id)), parse);
      items := items + [PayloadItem(profiles[i].id, amount)];
    }
    req := SalesRequest(date, items, Text.Trim(notes));
  }

  /** The payload as the server reads it; `show` is the amount's JSON text. */
  function AsServerInputs(items: seq<PayloadItem>, show: real -> string): (r: seq<Server.SaleInput>)
    ensures |r| == |items|
    ensures forall j :: 0 <= j < |items| ==> r[j] == Server.SaleInput(Some(items[j].profileId), Some(show(items[j].amount)))
  {
    seq(|items|, j requires 0 <= j < |items| => Server.SaleInput(Some(items[j].profileId), Some(show(items[j].amount))))
  }

  /** Every element the form sends carries a profile id. When those ids are
      ids of profile rows, as the profiles the page loaded from GET
      /api/profiles are, the server's batch runs through all of them. */
  lemma PayloadNamesEveryProfile(items: seq<PayloadItem>, show: real -> string, rows: seq<Profile>)
    requires forall j :: 0 <= j < |items| ==> ProfileById(rows, items[j].profileId).Some?
    ensures Server.FirstRejected(AsServerInputs(items, show), rows) == |items|
  {
    var xs := AsServerInputs(items, show);
    assert xs[..|xs|] == xs;
    assert forall j :: 0 <= j < |xs| ==> Server.Accepted(xs[j], rows);
    Server.FirstRejectedAt(xs, rows, |xs|);
  }

  // ---------------------------------------------------------------------
  // renderFixedCards and updateMetaProgress

  /** `Math.min(stats.metaProgress, 100)`: the width of the progress bar. */
  function ProgressWidth(metaProgress: real): (w: real)
    ensures w <= 100.0 && w <= metaProgress
    ensures w == metaProgress || w == 100.0
  {
    if metaProgress < 100.0 then metaProgress else 100.0
  }

  /** `Math.max(0, stats.monthlyMeta - stats.currentMonthSales)`: what is
      left to reach the target; 0 exactly when it is reached. */
  function Remaining(monthlyMeta: real, current: real): (r: real)
    ensures r >= 0.0
    ensures r == 0.0 <==> current >= monthlyMeta
    ensures r > 0.0 ==> current + r == monthlyMeta
  {
    if monthlyMeta - current > 0.0 then monthlyMeta - current else 0.0
  }

  /** The month-over-month change in percent: 0 unless the previous month
      sold something; then its sign is that of the difference. */
  function MonthOverMonth(current: real, last: real): (p: real)
    ensures last <= 0.0 ==> p == 0.0
    ensures last > 0.0 ==> p * last == (current - last) * 100.0
    ensures last > 0.0 ==> (p >= 0.0 <==> current >= last)
  {
    if last > 0.0 then (current - last) / last * 100.0 else 0.0
  }

  /** With a positive target, the dashboard's bar is full exactly when the
      current month has reached the target, which is exactly when nothing
      remains. */
  lemma GoalReached(stats: Server.DashboardStats)
    requires stats.monthlyMeta > 0.0
    requires Server.IsPercentOf(stats.metaProgress, stats.currentMonthSales, stats.monthlyMeta)
    ensures ProgressWidth(stats.metaProgress) == 100.0 <==> stats.currentMonthSales >= stats.monthlyMeta
    ensures ProgressWidth(stats.metaProgress) == 100.0 <==> Remaining(stats.monthlyMeta, stats.currentMonthSales) == 0.0
  {
    var m, c, p := stats.monthlyMeta, stats.currentMonthSales, stats.metaProgress;
    if p >= 100.0 {
      assert p * m >= 100.0 * m;
    } else {
      assert p * m < 100.0 * m;
    }
  }
}
