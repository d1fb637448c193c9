/** The tables of the sales database and the meaning of every SQL statement
    `DatabaseManager` issues against them, as functions of the tables'
    contents: the read queries (filters, joins, sums, orderings) and the
    effect of each write. The class that holds the tables and performs the
    writes step by step is `Store.DatabaseManager`. */
module Ledger {
  import opened Wrappers
  import Text
  import opened Seqs

  /** ISO `YYYY-MM-DD` text, compared as text as SQLite does. */
  type Date = string
  /** The value of SQLite's `CURRENT_TIMESTAMP`, supplied by the caller. */
  type Timestamp = string

  /** A row of `profiles`. */
  datatype Profile = Profile(id: int, name: string, color: string, active: bool, createdAt: Timestamp)

  /** A row of `daily_sales`. */
  datatype Sale = Sale(
    id: int, date: Date, profileId: int, amount: real, notes: Option<string>,
    createdAt: Timestamp, updatedAt: Timestamp)

  /** A table's rows in rowid order and the next AUTOINCREMENT id. */
  datatype ProfileTable = ProfileTable(rows: seq<Profile>, nextId: int)
  datatype SalesTable = SalesTable(rows: seq<Sale>, nextId: int)

  /** A row of `settings`, keyed by its `key` column. */
  datatype SettingRow = SettingRow(value: string, updatedAt: Timestamp)
  type Settings = map<string, SettingRow>

  /** The constraint failures a statement can raise. */
  datatype DbError = UniqueViolation | NotNullViolation | ForeignKeyViolation

  function ProfileIdOf(p: Profile): int { p.id }
  function ProfileNameOf(p: Profile): string { p.name }
  function SaleIdOf(s: Sale): int { s.id }
  /** The natural key of `daily_sales`: `UNIQUE(date, profile_id)`. */
  function SaleKey(s: Sale): (Date, int) { (s.date, s.profileId) }
  function SaleAmount(s: Sale): real { s.amount }

  // ---------------------------------------------------------------------
  // Schema constraints as invariants

  /** `id INTEGER PRIMARY KEY AUTOINCREMENT` and `name TEXT UNIQUE`. */
  ghost predicate ProfilesValid(t: ProfileTable) {
    && 1 <= t.nextId
    && (forall i :: 0 <= i < |t.rows| ==> 1 <= t.rows[i].id < t.nextId)
    && DistinctKeys(t.rows, ProfileIdOf)
    && DistinctKeys(t.rows, ProfileNameOf)
  }

  /** `id INTEGER PRIMARY KEY AUTOINCREMENT` and `UNIQUE(date, profile_id)`.
      The foreign key to profiles is `SalesReferToProfiles`. */
  ghost predicate SalesValid(t: SalesTable) {
    && 1 <= t.nextId
    && (forall i :: 0 <= i < |t.rows| ==> 1 <= t.rows[i].id < t.nextId)
    && DistinctKeys(t.rows, SaleIdOf)
    && DistinctKeys(t.rows, SaleKey)
  }

  /** `FOREIGN KEY (profile_id) REFERENCES profiles(id)`, which the
      connection enforces: every sales row names an existing profile. */
  ghost predicate SalesReferToProfiles(profiles: seq<Profile>, sales: seq<Sale>) {
    forall i :: 0 <= i < |sales| ==> ProfileById(profiles, sales[i].profileId).Some?
  }

  /** `rows2` keeps every row of `rows` in its place with its id: what
      every write to profiles does, since deleteProfile only clears the
      `active` flag. */
  predicate KeepsIds(rows: seq<Profile>, rows2: seq<Profile>) {
    |rows| <= |rows2| && forall i :: 0 <= i < |rows| ==> rows2[i].id == rows[i].id
  }

  // ---------------------------------------------------------------------
  // Lookups by key

  /** `SELECT * FROM profiles WHERE id = ?` with `.get()`: the first match. */
  function ProfileById(rows: seq<Profile>, id: int): (r: Option<Profile>)
    ensures r.Some? ==> r.value in rows && r.value.id == id
    ensures r.None? ==> forall i :: 0 <= i < |rows| ==> rows[i].id != id
  {
    if rows == [] then None
    else if rows[0].id == id then Some(rows[0])
    else ProfileById(rows[1..], id)
  }

  /** `SELECT * FROM daily_sales WHERE date = ? AND profile_id = ?` with
      `.get()`: the first match. */
  function SaleByKey(rows: seq<Sale>, date: Date, profileId: int): (r: Option<Sale>)
    ensures r.Some? ==> r.value in rows && SaleKey(r.value) == (date, profileId)
    ensures r.None? ==> forall i :: 0 <= i < |rows| ==> SaleKey(rows[i]) != (date, profileId)
  {
    if rows == [] then None
    else if SaleKey(rows[0]) == (date, profileId) then Some(rows[0])
    else SaleByKey(rows[1..], date, profileId)
  }

  /** Under the primary key the first match is the only one. */
  lemma ProfileByIdUnique(rows: seq<Profile>, p: Profile)
    requires DistinctKeys(rows, ProfileIdOf)
    requires p in rows
    ensures ProfileById(rows, p.id) == Some(p)
  {
    var q := ProfileById(rows, p.id).value;
    var i :| 0 <= i < |rows| && rows[i] == p;
    var j :| 0 <= j < |rows| && rows[j] == q;
    assert ProfileIdOf(rows[i]) == ProfileIdOf(rows[j]);
  }

  /** Under `UNIQUE(date, profile_id)` the first match is the only one. */
  lemma SaleByKeyUnique(rows: seq<Sale>, s: Sale)
    requires DistinctKeys(rows, SaleKey)
    requires s in rows
    ensures SaleByKey(rows, s.date, s.profileId) == Some(s)
  {
    var q := SaleByKey(rows, s.date, s.profileId).value;
    var i :| 0 <= i < |rows| && rows[i] == s;
    var j :| 0 <= j < |rows| && rows[j] == q;
    assert SaleKey(rows[i]) == SaleKey(rows[j]);
  }

  // ---------------------------------------------------------------------
  // daily_sales JOIN profiles

  /** A sales row with the `profile_name` and `profile_color` columns the
      listing queries add. */
  datatype SaleView = SaleView(sale: Sale, profileName: string, profileColor: string)

  function ViewAmount(v: SaleView): real { v.sale.amount }
  function ViewSaleId(v: SaleView): int { v.sale.id }

  /** The joined row for `s`, if its profile exists. */
  function ViewOf(profiles: seq<Profile>, s: Sale): Option<SaleView> {
    match ProfileById(profiles, s.profileId)
    case None => None
    case Some(p) => Some(SaleView(s, p.name, p.color))
  }

  /** `daily_sales ds JOIN profiles p ON ds.profile_id = p.id`, in the
      order of the sales rows: rows whose profile is missing are dropped. */
  function Joined(profiles: seq<Profile>, sales: seq<Sale>): (r: seq<SaleView>)
    ensures forall i :: 0 <= i < |r| ==> r[i].sale in sales && ViewOf(profiles, r[i].sale) == Some(r[i])
    ensures forall i :: 0 <= i < |sales| && ViewOf(profiles, sales[i]).Some? ==>
              ViewOf(profiles, sales[i]).value in r
  {
    if sales == [] then []
    else
      var r := (match ViewOf(profiles, sales[0]) case None => [] case Some(v) => [v])
        + Joined(profiles, sales[1..]);
      assert sales == [sales[0]] + sales[1..];
      r
  }

  lemma {:induction false} JoinedDistinct(profiles: seq<Profile>, sales: seq<Sale>)
    requires DistinctKeys(sales, SaleIdOf)
    ensures DistinctKeys(Joined(profiles, sales), ViewSaleId)
  {
    if sales != [] {
      DistinctKeysTail(sales, SaleIdOf);
      JoinedDistinct(profiles, sales[1..]);
      var tail := Joined(profiles, sales[1..]);
      match ViewOf(profiles, sales[0])
      case None =>
      case Some(v) =>
        forall y | y in tail
          ensures ViewSaleId(y) != ViewSaleId(v)
        {
          var k :| 0 <= k < |tail| && tail[k] == y;
          assert y.sale in sales[1..];
        }
        DistinctKeysCons(v, tail, ViewSaleId);
    }
  }

  // ---------------------------------------------------------------------
  // getSalesByDateRange and getSalesByDate

  /** `date BETWEEN lo AND hi` on text. */
  predicate InRange(d: Date, lo: Date, hi: Date) {
    Text.LessEq(lo, d) && Text.LessEq(d, hi)
  }

  /** The `WHERE` of `getSalesByDateRange`; the profile test is added only
      when a profile id is given. */
  predicate MatchesRange(v: SaleView, lo: Date, hi: Date, profileId: Option<int>) {
    InRange(v.sale.date, lo, hi) && (profileId.Some? ==> v.sale.profileId == profileId.value)
  }

  /** `ORDER BY ds.date, p.name`. */
  predicate DateThenName(a: SaleView, b: SaleView) {
    || Text.Less(a.sale.date, b.sale.date)
    || (a.sale.date == b.sale.date && Text.LessEq(a.profileName, b.profileName))
  }

  /** `ORDER BY p.name`. */
  predicate ViewByName(a: SaleView, b: SaleView) {
    Text.LessEq(a.profileName, b.profileName)
  }

  function SalesByDateRange(profiles: seq<Profile>, sales: seq<Sale>, lo: Date, hi: Date, profileId: Option<int>): seq<SaleView> {
    SortBy(Filter(Joined(profiles, sales), v => MatchesRange(v, lo, hi, profileId)), DateThenName)
  }

  function SalesByDate(profiles: seq<Profile>, sales: seq<Sale>, date: Date): seq<SaleView> {
    SortBy(Filter(Joined(profiles, sales), (v: SaleView) => v.sale.date == date), ViewByName)
  }

  lemma LessEqTotal(a: string, b: string)
    ensures Text.LessEq(a, b) || Text.LessEq(b, a)
  {
    Text.LessTrichotomy(a, b);
  }

  lemma LessEqTransitive(a: string, b: string, c: string)
    requires Text.LessEq(a, b) && Text.LessEq(b, c)
    ensures Text.LessEq(a, c)
  {
    if a != b && b != c {
      Text.LessTransitive(a, b, c);
    }
  }

  lemma DateThenNameTotalPreorder()
    ensures TotalPreorder(DateThenName)
  {
    forall a: SaleView, b: SaleView
      ensures DateThenName(a, b) || DateThenName(b, a)
    {
      Text.LessTrichotomy(a.sale.date, b.sale.date);
      LessEqTotal(a.profileName, b.profileName);
    }
    forall a: SaleView, b: SaleView, c: SaleView | DateThenName(a, b) && DateThenName(b, c)
      ensures DateThenName(a, c)
    {
      if Text.Less(a.sale.date, b.sale.date) && Text.Less(b.sale.date, c.sale.date) {
        Text.LessTransitive(a.sale.date, b.sale.date, c.sale.date);
      } else if a.sale.date == b.sale.date && b.sale.date == c.sale.date {
        LessEqTransitive(a.profileName, b.profileName, c.profileName);
      }
    }
  }

  lemma ViewByNameTotalPreorder()
    ensures TotalPreorder(ViewByName)
  {
    forall a: SaleView, b: SaleView
      ensures ViewByName(a, b) || ViewByName(b, a)
    {
      LessEqTotal(a.profileName, b.profileName);
    }
    forall a: SaleView, b: SaleView, c: SaleView | ViewByName(a, b) && ViewByName(b, c)
      ensures ViewByName(a, c)
    {
      LessEqTransitive(a.profileName, b.profileName, c.profileName);
    }
  }

  /** A sorted result holds what its unsorted input held. */
  lemma SortByMembers<T>(s: seq<T>, le: (T, T) -> bool, x: T)
    ensures x in SortBy(s, le) <==> x in s
  {
    assert x in SortBy(s, le) <==> x in multiset(SortBy(s, le));
  }

  lemma FilterMembers<T>(s: seq<T>, p: T -> bool, x: T)
    ensures x in Filter(s, p) <==> x in s && p(x)
  {
    if x in s && p(x) {
      var i :| 0 <= i < |s| && s[i] == x;
    }
  }

  lemma JoinedMembers(profiles: seq<Profile>, sales: seq<Sale>, v: SaleView)
    ensures v in Joined(profiles, sales) <==> v.sale in sales && ViewOf(profiles, v.sale) == Some(v)
  {
    if v.sale in sales && ViewOf(profiles, v.sale) == Some(v) {
      var i :| 0 <= i < |sales| && sales[i] == v.sale;
    }
  }

  /** getSalesByDateRange lists exactly the sales rows in `[lo, hi]` whose
      profile exists (restricted to one profile when one is given), each
      with that profile's name and colour, ordered by date, then name. */
  lemma SalesByDateRangeSpec(profiles: seq<Profile>, sales: seq<Sale>, lo: Date, hi: Date, profileId: Option<int>)
    ensures var r := SalesByDateRange(profiles, sales, lo, hi, profileId);
      && (forall v :: v in r <==>
            v.sale in sales && ViewOf(profiles, v.sale) == Some(v) && MatchesRange(v, lo, hi, profileId))
      && Sorted(r, DateThenName)
  {
    var f := Filter(Joined(profiles, sales), v => MatchesRange(v, lo, hi, profileId));
    forall v
      ensures v in SalesByDateRange(profiles, sales, lo, hi, profileId) <==>
        v.sale in sales && ViewOf(profiles, v.sale) == Some(v) && MatchesRange(v, lo, hi, profileId)
    {
      SortByMembers(f, DateThenName, v);
      FilterMembers(Joined(profiles, sales), v => MatchesRange(v, lo, hi, profileId), v);
      JoinedMembers(profiles, sales, v);
    }
    DateThenNameTotalPreorder();
    SortBySorted(f, DateThenName);
  }

  /** No sales row is listed twice. */
  lemma SalesByDateRangeDistinct(profiles: seq<Profile>, sales: SalesTable, lo: Date, hi: Date, profileId: Option<int>)
    requires SalesValid(sales)
    ensures DistinctKeys(SalesByDateRange(profiles, sales.rows, lo, hi, profileId), ViewSaleId)
  {
    var j := Joined(profiles, sales.rows);
    JoinedDistinct(profiles, sales.rows);
    FilterDistinctKeys(j, v => MatchesRange(v, lo, hi, profileId), ViewSaleId);
    SortByDistinctKeys(Filter(j, v => MatchesRange(v, lo, hi, profileId)), DateThenName, ViewSaleId);
  }

  /** getSalesByDate lists exactly the rows of that date whose profile
      exists, ordered by profile name. */
  lemma SalesByDateSpec(profiles: seq<Profile>, sales: seq<Sale>, date: Date)
    ensures var r := SalesByDate(profiles, sales, date);
      && (forall v :: v in r <==> v.sale in sales && ViewOf(profiles, v.sale) == Some(v) && v.sale.date == date)
      && Sorted(r, ViewByName)
  {
    var f := Filter(Joined(profiles, sales), (v: SaleView) => v.sale.date == date);
    forall v
      ensures v in SalesByDate(profiles, sales, date) <==>
        v.sale in sales && ViewOf(profiles, v.sale) == Some(v) && v.sale.date == date
    {
      SortByMembers(f, ViewByName, v);
      FilterMembers(Joined(profiles, sales), (v: SaleView) => v.sale.date == date, v);
      JoinedMembers(profiles, sales, v);
    }
    ViewByNameTotalPreorder();
    SortBySorted(f, ViewByName);
  }

  /** getSalesByDate(d) is the one-day range query `[d, d]` without a
      profile filter, row for row and in the same order. */
  lemma SalesByDateIsOneDayRange(profiles: seq<Profile>, sales: seq<Sale>, date: Date)
    ensures SalesByDate(profiles, sales, date) == SalesByDateRange(profiles, sales, date, date, None)
  {
    var j := Joined(profiles, sales);
    forall v | v in j
      ensures (v.sale.date == date) == MatchesRange(v, date, date, None)
    {
      Text.BetweenSelf(date, v.sale.date);
    }
    FilterAgree(j, (v: SaleView) => v.sale.date == date, v => MatchesRange(v, date, date, None));
    var f := Filter(j, (v: SaleView) => v.sale.date == date);
    forall a, b | a in f && b in f
      ensures ViewByName(a, b) == DateThenName(a, b)
    {
      FilterMembers(j, (v: SaleView) => v.sale.date == date, a);
      FilterMembers(j, (v: SaleView) => v.sale.date == date, b);
      Text.LessIrreflexive(date);
    }
    SortByAgree(f, ViewByName, DateThenName);
  }

  // ---------------------------------------------------------------------
  // getTotalSales

  /** The `startDate && endDate` test: both bounds present and non-empty. */
  function Window(lo: Option<Date>, hi: Option<Date>): (w: Option<(Date, Date)>)
    ensures w.Some? <==> Truthy(lo) && Truthy(hi)
    ensures w.Some? ==> w.value == (lo.value, hi.value)
  {
    if Truthy(lo) && Truthy(hi) then Some((lo.value, hi.value)) else None
  }

  predicate InWindow(s: Sale, w: Option<(Date, Date)>) {
    w.None? || InRange(s.date, w.value.0, w.value.1)
  }

  /** `SELECT SUM(amount) FROM daily_sales [WHERE date BETWEEN ? AND ?]`,
      with `|| 0` turning the NULL of an empty sum into 0. No join: rows of
      inactive or missing profiles count too. */
  function TotalSales(sales: seq<Sale>, lo: Option<Date>, hi: Option<Date>): real {
    var w := Window(lo, hi);
    Sum(Filter(sales, s => InWindow(s, w)), SaleAmount)
  }

  /** With both bounds the total is 0 when no row lies in the range, and
      without them it is 0 when the table is empty. */
  lemma TotalSalesNoMatch(sales: seq<Sale>, lo: Option<Date>, hi: Option<Date>)
    requires forall i :: 0 <= i < |sales| ==> !InWindow(sales[i], Window(lo, hi))
    ensures TotalSales(sales, lo, hi) == 0.0
  {
  }

  lemma {:induction false} TotalMatchesJoinedSum(profiles: seq<Profile>, sales: seq<Sale>, lo: Date, hi: Date)
    requires forall i :: 0 <= i < |sales| ==> ViewOf(profiles, sales[i]).Some?
    ensures Sum(Filter(sales, s => InWindow(s, Some((lo, hi)))), SaleAmount)
         == Sum(Filter(Joined(profiles, sales), v => MatchesRange(v, lo, hi, None)), ViewAmount)
  {
    var p := (s: Sale) => InWindow(s, Some((lo, hi)));
    var q := (v: SaleView) => MatchesRange(v, lo, hi, None);
    if sales != [] {
      var v := ViewOf(profiles, sales[0]).value;
      var j := Joined(profiles, sales);
      assert j == [v] + Joined(profiles, sales[1..]);
      assert j[1..] == Joined(profiles, sales[1..]);
      assert p(sales[0]) == q(v);
      TotalMatchesJoinedSum(profiles, sales[1..], lo, hi);
      var a := Filter(sales[1..], p);
      var b := Filter(j[1..], q);
      assert Sum(a, SaleAmount) == Sum(b, ViewAmount);
      if p(sales[0]) {
        assert Filter(sales, p) == [sales[0]] + a;
        assert Filter(j, q) == [v] + b;
        assert ([sales[0]] + a)[1..] == a;
        assert ([v] + b)[1..] == b;
      } else {
        assert Filter(sales, p) == a;
        assert Filter(j, q) == b;
      }
    }
  }

  /** Under the foreign key the bounded total equals the sum of the
      amounts getSalesByDateRange lists for the same range. */
  lemma TotalSalesMatchesListing(profiles: seq<Profile>, sales: seq<Sale>, lo: Date, hi: Date)
    requires lo != "" && hi != ""
    requires SalesReferToProfiles(profiles, sales)
    ensures TotalSales(sales, Some(lo), Some(hi)) == Sum(SalesByDateRange(profiles, sales, lo, hi, None), ViewAmount)
  {
    forall i | 0 <= i < |sales|
      ensures ViewOf(profiles, sales[i]).Some?
    {
      assert ProfileById(profiles, sales[i].profileId).Some?;
    }
    TotalMatchesJoinedSum(profiles, sales, lo, hi);
    SumSortBy(Filter(Joined(profiles, sales), v => MatchesRange(v, lo, hi, None)), DateThenName, ViewAmount);
  }

  // ---------------------------------------------------------------------
  // getSalesByProfile

  /** One row of getSalesByProfile: `p.id, p.name, p.color, total`. */
  datatype ProfileTotal = ProfileTotal(id: int, name: string, color: string, total: real)

  function TotalIdOf(t: ProfileTotal): int { t.id }

  /** The sales rows of profile `id` that pass the date test. */
  function ProfileSales(sales: seq<Sale>, id: int, w: Option<(Date, Date)>): seq<Sale> {
    Filter(sales, (s: Sale) => s.profileId == id && InWindow(s, w))
  }

  /** Whether the query returns a row for `p`: it must be active, and when
      the date test is present it sits in `WHERE` after the `LEFT JOIN`, so
      a profile with no joined row in range is dropped. */
  predicate Listed(p: Profile, sales: seq<Sale>, w: Option<(Date, Date)>) {
    p.active && (w.None? || ProfileSales(sales, p.id, w) != [])
  }

  /** `COALESCE(SUM(ds.amount), 0)` for `p`. */
  function TotalOf(p: Profile, sales: seq<Sale>, w: Option<(Date, Date)>): ProfileTotal {
    ProfileTotal(p.id, p.name, p.color, Sum(ProfileSales(sales, p.id, w), SaleAmount))
  }

  /** The profiles that get a row, in table order. */
  function ListedProfiles(profiles: seq<Profile>, sales: seq<Sale>, w: Option<(Date, Date)>): seq<Profile> {
    Filter(profiles, p => Listed(p, sales, w))
  }

  /** One group per listed profile, in table order. */
  function Groups(profiles: seq<Profile>, sales: seq<Sale>, w: Option<(Date, Date)>): (r: seq<ProfileTotal>)
    ensures |r| == |ListedProfiles(profiles, sales, w)|
    ensures forall i :: 0 <= i < |r| ==> r[i] == TotalOf(ListedProfiles(profiles, sales, w)[i], sales, w)
  {
    var l := ListedProfiles(profiles, sales, w);
    seq(|l|, i requires 0 <= i < |l| => TotalOf(l[i], sales, w))
  }

  lemma GroupsDistinct(profiles: seq<Profile>, sales: seq<Sale>, w: Option<(Date, Date)>)
    requires DistinctKeys(profiles, ProfileIdOf)
    ensures DistinctKeys(Groups(profiles, sales, w), TotalIdOf)
  {
    var l := ListedProfiles(profiles, sales, w);
    FilterDistinctKeys(profiles, p => Listed(p, sales, w), ProfileIdOf);
    var g := Groups(profiles, sales, w);
    forall i, j | 0 <= i < j < |g|
      ensures TotalIdOf(g[i]) != TotalIdOf(g[j])
    {
      assert ProfileIdOf(l[i]) != ProfileIdOf(l[j]);
    }
  }

  /** `ORDER BY total DESC`, with nothing said about equal totals. */
  predicate TotalDesc(a: ProfileTotal, b: ProfileTotal) {
    a.total >= b.total
  }

  function SalesByProfile(profiles: seq<Profile>, sales: seq<Sale>, lo: Option<Date>, hi: Option<Date>): seq<ProfileTotal> {
    SortBy(Groups(profiles, sales, Window(lo, hi)), TotalDesc)
  }

  /** getSalesByProfile has a row for exactly the listed profiles (see
      `Listed`), holding the profile's id, name, colour and the sum of its
      rows that pass the date test, and is ordered by total, largest first.
      Without both bounds every active profile is listed, those without
      sales with total 0; with them, only profiles with a sale in range. */
  lemma SalesByProfileSpec(profiles: seq<Profile>, sales: seq<Sale>, lo: Option<Date>, hi: Option<Date>)
    ensures var r := SalesByProfile(profiles, sales, lo, hi); var w := Window(lo, hi);
      && (forall k :: 0 <= k < |profiles| && Listed(profiles[k], sales, w) ==> TotalOf(profiles[k], sales, w) in r)
      && (forall t :: t in r ==> exists k :: 0 <= k < |profiles| && Listed(profiles[k], sales, w) && t == TotalOf(profiles[k], sales, w))
      && (forall t :: t in r ==> t.total == Sum(ProfileSales(sales, t.id, w), SaleAmount))
      && (forall t :: t in r && w.Some? ==> ProfileSales(sales, t.id, w) != [])
      && Sorted(r, TotalDesc)
  {
    var w := Window(lo, hi);
    var g := Groups(profiles, sales, w);
    var r := SalesByProfile(profiles, sales, lo, hi);
    GroupsMembers(profiles, sales, w);
    forall t
      ensures t in r <==> t in g
    {
      SortByMembers(g, TotalDesc, t);
    }
    SortBySorted(g, TotalDesc);
  }

  /** The groups are the totals of exactly the listed profiles. */
  lemma GroupsMembers(profiles: seq<Profile>, sales: seq<Sale>, w: Option<(Date, Date)>)
    ensures forall k :: 0 <= k < |profiles| && Listed(profiles[k], sales, w) ==> TotalOf(profiles[k], sales, w) in Groups(profiles, sales, w)
    ensures forall t :: t in Groups(profiles, sales, w) ==>
      exists k :: 0 <= k < |profiles| && Listed(profiles[k], sales, w) && t == TotalOf(profiles[k], sales, w)
  {
    var g := Groups(profiles, sales, w);
    var l := ListedProfiles(profiles, sales, w);
    forall k | 0 <= k < |profiles| && Listed(profiles[k], sales, w)
      ensures TotalOf(profiles[k], sales, w) in g
    {
      var i :| 0 <= i < |l| && l[i] == profiles[k];
      assert g[i] == TotalOf(profiles[k], sales, w);
    }
    forall t | t in g
      ensures exists k :: 0 <= k < |profiles| && Listed(profiles[k], sales, w) && t == TotalOf(profiles[k], sales, w)
    {
      var i :| 0 <= i < |g| && g[i] == t;
      assert l[i] in profiles && Listed(l[i], sales, w);
      var k :| 0 <= k < |profiles| && profiles[k] == l[i];
    }
  }

  /** Each profile appears at most once. */
  lemma SalesByProfileDistinct(profiles: ProfileTable, sales: seq<Sale>, lo: Option<Date>, hi: Option<Date>)
    requires ProfilesValid(profiles)
    ensures DistinctKeys(SalesByProfile(profiles.rows, sales, lo, hi), TotalIdOf)
  {
    GroupsDistinct(profiles.rows, sales, Window(lo, hi));
    SortByDistinctKeys(Groups(profiles.rows, sales, Window(lo, hi)), TotalDesc, TotalIdOf);
  }

  // ---------------------------------------------------------------------
  // getAllProfiles and getSetting

  /** `ORDER BY name`. */
  predicate ProfileByName(a: Profile, b: Profile) {
    Text.LessEq(a.name, b.name)
  }

  function IsActive(p: Profile): bool { p.active }

  /** `SELECT * FROM profiles [WHERE active = 1] ORDER BY name`. */
  function AllProfiles(rows: seq<Profile>, activeOnly: bool): seq<Profile> {
    SortBy(if activeOnly then Filter(rows, IsActive) else rows, ProfileByName)
  }

  /** getAllProfiles lists every profile (only the active ones when asked),
      each once, ordered by name. */
  lemma AllProfilesSpec(rows: seq<Profile>, activeOnly: bool)
    ensures var r := AllProfiles(rows, activeOnly);
      && (forall p :: p in r <==> p in rows && (activeOnly ==> p.active))
      && Sorted(r, ProfileByName)
      && |r| == |if activeOnly then Filter(rows, IsActive) else rows|
  {
    var f := if activeOnly then Filter(rows, IsActive) else rows;
    forall p
      ensures p in AllProfiles(rows, activeOnly) <==> p in rows && (activeOnly ==> p.active)
    {
      SortByMembers(f, ProfileByName, p);
      FilterMembers(rows, IsActive, p);
    }
    forall a: Profile, b: Profile
      ensures ProfileByName(a, b) || ProfileByName(b, a)
    {
      LessEqTotal(a.name, b.name);
    }
    forall a: Profile, b: Profile, c: Profile | ProfileByName(a, b) && ProfileByName(b, c)
      ensures ProfileByName(a, c)
    {
      LessEqTransitive(a.name, b.name, c.name);
    }
    SortBySorted(f, ProfileByName);
    assert |multiset(AllProfiles(rows, activeOnly))| == |multiset(f)|;
  }

  /** `SELECT value FROM settings WHERE key = ?`, NULL when absent. */
  function GetSetting(settings: Settings, key: string): (r: Option<string>)
    ensures r.Some? <==> key in settings
    ensures r.Some? ==> r.value == settings[key].value
  {
    if key in settings then Some(settings[key].value) else None
  }

  // ---------------------------------------------------------------------
  // Writes to daily_sales

  /** `UPDATE daily_sales SET amount = ?, notes = ?, updated_at =
      CURRENT_TIMESTAMP WHERE date = ? AND profile_id = ?`. */
  function UpdateByKey(rows: seq<Sale>, date: Date, profileId: int, amount: real, notes: Option<string>, now: Timestamp): seq<Sale> {
    seq(|rows|, i requires 0 <= i < |rows| =>
      if SaleKey(rows[i]) == (date, profileId)
      then rows[i].(amount := amount, notes := notes, updatedAt := now)
      else rows[i])
  }

  /** `INSERT INTO daily_sales (date, profile_id, amount, notes)`: the next
      id, and both timestamps set to now. */
  function InsertSale(t: SalesTable, date: Date, profileId: int, amount: real, notes: Option<string>, now: Timestamp): SalesTable {
    SalesTable(t.rows + [Sale(t.nextId, date, profileId, amount, notes, now, now)], t.nextId + 1)
  }

  /** The effect of createOrUpdateSale: update the row with key
      `(date, profileId)` when the lookup finds one, insert otherwise. */
  function Upserted(t: SalesTable, date: Date, profileId: int, amount: real, notes: Option<string>, now: Timestamp): SalesTable {
    if SaleByKey(t.rows, date, profileId).Some?
    then t.(rows := UpdateByKey(t.rows, date, profileId, amount, notes, now))
    else InsertSale(t, date, profileId, amount, notes, now)
  }

  /** After the upsert there is exactly one row with key `(date, profileId)`;
      it carries the new amount, notes and `updated_at`. When a row with that
      key existed it keeps its id and `created_at` and the table keeps its
      size; otherwise the new row takes the next id and the table grows by
      one. The table's constraints still hold. */
  lemma UpsertedRow(t: SalesTable, date: Date, profileId: int, amount: real, notes: Option<string>, now: Timestamp)
    requires SalesValid(t)
    ensures var t' := Upserted(t, date, profileId, amount, notes, now);
      && SalesValid(t')
      && SaleByKey(t'.rows, date, profileId).Some?
      && var s := SaleByKey(t'.rows, date, profileId).value;
      && s.amount == amount && s.notes == notes && s.updatedAt == now
      && (forall x :: x in t'.rows && SaleKey(x) == (date, profileId) ==> x == s)
      && match SaleByKey(t.rows, date, profileId)
         case Some(o) => s.id == o.id && s.createdAt == o.createdAt && |t'.rows| == |t.rows| && t'.nextId == t.nextId
         case None => s.id == t.nextId && s.createdAt == now && |t'.rows| == |t.rows| + 1 && t'.nextId == t.nextId + 1
  {
    var t' := Upserted(t, date, profileId, amount, notes, now);
    UpsertedValid(t, date, profileId, amount, notes, now);
    match SaleByKey(t.rows, date, profileId)
    case Some(o) => UpsertedExisting(t, date, profileId, amount, notes, now, o);
    case None => UpsertedNew(t, date, profileId, amount, notes, now);
    OnlyRowOfKey(t'.rows, SaleByKey(t'.rows, date, profileId).value);
  }

  lemma UpsertedExisting(t: SalesTable, date: Date, profileId: int, amount: real, notes: Option<string>, now: Timestamp, o: Sale)
    requires SalesValid(t) && SaleByKey(t.rows, date, profileId) == Some(o)
    ensures var t' := Upserted(t, date, profileId, amount, notes, now);
      && SaleByKey(t'.rows, date, profileId) == Some(o.(amount := amount, notes := notes, updatedAt := now))
      && |t'.rows| == |t.rows| && t'.nextId == t.nextId
  {
    var t' := Upserted(t, date, profileId, amount, notes, now);
    UpsertedValid(t, date, profileId, amount, notes, now);
    var i :| 0 <= i < |t.rows| && t.rows[i] == o;
    assert t'.rows[i] == o.(amount := amount, notes := notes, updatedAt := now);
    SaleByKeyUnique(t'.rows, t'.rows[i]);
  }

  lemma UpsertedNew(t: SalesTable, date: Date, profileId: int, amount: real, notes: Option<string>, now: Timestamp)
    requires SalesValid(t) && SaleByKey(t.rows, date, profileId).None?
    ensures var t' := Upserted(t, date, profileId, amount, notes, now);
      && SaleByKey(t'.rows, date, profileId) == Some(Sale(t.nextId, date, profileId, amount, notes, now, now))
      && |t'.rows| == |t.rows| + 1 && t'.nextId == t.nextId + 1
  {
    var t' := Upserted(t, date, profileId, amount, notes, now);
    UpsertedValid(t, date, profileId, amount, notes, now);
    assert t'.rows[|t.rows|] == Sale(t.nextId, date, profileId, amount, notes, now, now);
    SaleByKeyUnique(t'.rows, t'.rows[|t.rows|]);
  }

  /** Under `UNIQUE(date, profile_id)` a row is the only one with its key. */
  lemma OnlyRowOfKey(rows: seq<Sale>, s: Sale)
    requires DistinctKeys(rows, SaleKey) && s in rows
    ensures forall x :: x in rows && SaleKey(x) == SaleKey(s) ==> x == s
  {
    forall x | x in rows && SaleKey(x) == SaleKey(s)
      ensures x == s
    {
      SaleByKeyUnique(rows, x);
      SaleByKeyUnique(rows, s);
    }
  }

  lemma UpsertedValid(t: SalesTable, date: Date, profileId: int, amount: real, notes: Option<string>, now: Timestamp)
    requires SalesValid(t)
    ensures SalesValid(Upserted(t, date, profileId, amount, notes, now))
  {
    var t' := Upserted(t, date, profileId, amount, notes, now);
    if SaleByKey(t.rows, date, profileId).Some? {
      forall i, j | 0 <= i < j < |t'.rows|
        ensures SaleIdOf(t'.rows[i]) != SaleIdOf(t'.rows[j]) && SaleKey(t'.rows[i]) != SaleKey(t'.rows[j])
      {
        assert SaleIdOf(t.rows[i]) != SaleIdOf(t.rows[j]) && SaleKey(t.rows[i]) != SaleKey(t.rows[j]);
      }
    } else {
      forall i, j | 0 <= i < j < |t'.rows|
        ensures SaleIdOf(t'.rows[i]) != SaleIdOf(t'.rows[j]) && SaleKey(t'.rows[i]) != SaleKey(t'.rows[j])
      {
        if j < |t.rows| {
          assert SaleIdOf(t.rows[i]) != SaleIdOf(t.rows[j]) && SaleKey(t.rows[i]) != SaleKey(t.rows[j]);
        } else {
          assert t'.rows[i] == t.rows[i];
        }
      }
    }
  }

  /** Rows with another key are untouched by the upsert, and keep their
      place. */
  lemma UpsertedOthers(t: SalesTable, date: Date, profileId: int, amount: real, notes: Option<string>, now: Timestamp)
    ensures var t' := Upserted(t, date, profileId, amount, notes, now);
      && |t.rows| <= |t'.rows| <= |t.rows| + 1
      && (forall i :: 0 <= i < |t.rows| && SaleKey(t.rows[i]) != (date, profileId) ==> t'.rows[i] == t.rows[i])
      && (forall i :: 0 <= i < |t'.rows| && SaleKey(t'.rows[i]) != (date, profileId) ==> t'.rows[i] in t.rows)
  {
  }

  /** The upsert leaves the row of every other key as it was. */
  lemma UpsertedOtherKey(t: SalesTable, date: Date, profileId: int, amount: real, notes: Option<string>, now: Timestamp, d: Date, p: int)
    requires SalesValid(t)
    requires (d, p) != (date, profileId)
    ensures SaleByKey(Upserted(t, date, profileId, amount, notes, now).rows, d, p) == SaleByKey(t.rows, d, p)
  {
    var t' := Upserted(t, date, profileId, amount, notes, now);
    UpsertedValid(t, date, profileId, amount, notes, now);
    UpsertedOthers(t, date, profileId, amount, notes, now);
    match SaleByKey(t.rows, d, p)
    case Some(s) =>
      var i :| 0 <= i < |t.rows| && t.rows[i] == s;
      assert t'.rows[i] == s;
      SaleByKeyUnique(t'.rows, s);
    case None =>
  }

  /** An upsert naming an existing profile keeps the foreign key. */
  lemma UpsertedKeepsReferences(profiles: seq<Profile>, t: SalesTable, date: Date, profileId: int, amount: real,
                                notes: Option<string>, now: Timestamp)
    requires SalesReferToProfiles(profiles, t.rows)
    requires ProfileById(profiles, profileId).Some?
    ensures SalesReferToProfiles(profiles, Upserted(t, date, profileId, amount, notes, now).rows)
  {
    var t' := Upserted(t, date, profileId, amount, notes, now);
    forall i | 0 <= i < |t'.rows|
      ensures ProfileById(profiles, t'.rows[i].profileId).Some?
    {
      if i < |t.rows| {
        assert t'.rows[i].profileId == t.rows[i].profileId;
      }
    }
  }

  /** Under the foreign key, a row the lookup finds names an existing
      profile. */
  lemma ReferencedProfile(profiles: seq<Profile>, sales: seq<Sale>, s: Sale)
    requires SalesReferToProfiles(profiles, sales)
    requires s in sales
    ensures ProfileById(profiles, s.profileId).Some?
  {
    var i :| 0 <= i < |sales| && sales[i] == s;
  }

  /** `DELETE FROM daily_sales WHERE id = ?`. */
  function WithoutSale(t: SalesTable, id: int): SalesTable {
    t.(rows := Filter(t.rows, (s: Sale) => s.id != id))
  }

  /** deleteSale removes the row with that id and nothing else; when no row
      has it, the table is unchanged. */
  lemma WithoutSaleSpec(t: SalesTable, id: int)
    requires SalesValid(t)
    ensures var t' := WithoutSale(t, id);
      && SalesValid(t')
      && (forall s :: s in t'.rows <==> s in t.rows && s.id != id)
      && ((forall i :: 0 <= i < |t.rows| ==> t.rows[i].id != id) ==> t' == t)
  {
    var t' := WithoutSale(t, id);
    forall s
      ensures s in t'.rows <==> s in t.rows && s.id != id
    {
      FilterMembers(t.rows, (s: Sale) => s.id != id, s);
    }
    FilterDistinctKeys(t.rows, (s: Sale) => s.id != id, SaleIdOf);
    FilterDistinctKeys(t.rows, (s: Sale) => s.id != id, SaleKey);
    if forall i :: 0 <= i < |t.rows| ==> t.rows[i].id != id {
      FilterAll(t.rows, (s: Sale) => s.id != id);
    }
  }

  /** Removing a row keeps the foreign key. */
  lemma WithoutSaleKeepsReferences(profiles: seq<Profile>, t: SalesTable, id: int)
    requires SalesReferToProfiles(profiles, t.rows)
    ensures SalesReferToProfiles(profiles, WithoutSale(t, id).rows)
  {
    var t' := WithoutSale(t, id);
    forall i | 0 <= i < |t'.rows|
      ensures ProfileById(profiles, t'.rows[i].profileId).Some?
    {
      FilterMembers(t.rows, (s: Sale) => s.id != id, t'.rows[i]);
      ReferencedProfile(profiles, t.rows, t'.rows[i]);
    }
  }

  // ---------------------------------------------------------------------
  // Writes to profiles

  /** Whether a profile other than `except` already has `name`: the
      `UNIQUE` test of an insert (`except` None) or of a rename. */
  predicate NameTaken(rows: seq<Profile>, name: string, except: Option<int>) {
    exists i :: 0 <= i < |rows| && rows[i].name == name && (except.None? || rows[i].id != except.value)
  }

  /** `INSERT INTO profiles (name, color)`: next id, active by default. */
  function InsertProfile(t: ProfileTable, name: string, color: string, now: Timestamp): ProfileTable {
    ProfileTable(t.rows + [Profile(t.nextId, name, color, true, now)], t.nextId + 1)
  }

  /** `UPDATE profiles SET name = ?, color = ? WHERE id = ?`. */
  function Renamed(rows: seq<Profile>, id: int, name: string, color: string): seq<Profile> {
    seq(|rows|, i requires 0 <= i < |rows| => if rows[i].id == id then rows[i].(name := name, color := color) else rows[i])
  }

  /** `UPDATE profiles SET active = 0 WHERE id = ?`. */
  function Deactivated(rows: seq<Profile>, id: int): seq<Profile> {
    seq(|rows|, i requires 0 <= i < |rows| => if rows[i].id == id then rows[i].(active := false) else rows[i])
  }

  /** A profile id that resolves before a write to profiles still resolves
      after it. */
  lemma ProfileByIdKept(rows: seq<Profile>, rows2: seq<Profile>, x: int)
    requires KeepsIds(rows, rows2)
    requires ProfileById(rows, x).Some?
    ensures ProfileById(rows2, x).Some?
  {
    var i :| 0 <= i < |rows| && rows[i] == ProfileById(rows, x).value;
    assert rows2[i].id == x;
  }

  /** A write to profiles that keeps every id keeps the foreign key: no
      sales row loses its profile. */
  lemma ReferencesKept(rows: seq<Profile>, rows2: seq<Profile>, sales: seq<Sale>)
    requires KeepsIds(rows, rows2)
    requires SalesReferToProfiles(rows, sales)
    ensures SalesReferToProfiles(rows2, sales)
  {
    forall i | 0 <= i < |sales|
      ensures ProfileById(rows2, sales[i].profileId).Some?
    {
      ProfileByIdKept(rows, rows2, sales[i].profileId);
    }
  }

  /** An insert whose name is free keeps the constraints and adds one
      active profile under the next id. */
  lemma InsertProfileValid(t: ProfileTable, name: string, color: string, now: Timestamp)
    requires ProfilesValid(t) && !NameTaken(t.rows, name, None)
    ensures var t' := InsertProfile(t, name, color, now);
      && ProfilesValid(t')
      && ProfileById(t'.rows, t.nextId) == Some(Profile(t.nextId, name, color, true, now))
  {
    var t' := InsertProfile(t, name, color, now);
    forall i, j | 0 <= i < j < |t'.rows|
      ensures ProfileIdOf(t'.rows[i]) != ProfileIdOf(t'.rows[j]) && ProfileNameOf(t'.rows[i]) != ProfileNameOf(t'.rows[j])
    {
      if j < |t.rows| {
        assert ProfileIdOf(t.rows[i]) != ProfileIdOf(t.rows[j]) && ProfileNameOf(t.rows[i]) != ProfileNameOf(t.rows[j]);
      } else {
        assert t'.rows[i] == t.rows[i];
      }
    }
    ProfileByIdUnique(t'.rows, t'.rows[|t.rows|]);
  }

  /** A rename whose name no other profile holds keeps the constraints,
      changes only the row with that id, and keeps its id, active flag and
      creation time. */
  lemma RenamedSpec(t: ProfileTable, id: int, name: string, color: string)
    requires ProfilesValid(t) && !NameTaken(t.rows, name, Some(id))
    ensures var t' := t.(rows := Renamed(t.rows, id, name, color));
      && ProfilesValid(t')
      && (forall p :: p in t.rows && p.id != id ==> p in t'.rows)
      && match ProfileById(t.rows, id)
         case None => t'.rows == t.rows
         case Some(p) => ProfileById(t'.rows, id) == Some(p.(name := name, color := color))
  {
    var t' := t.(rows := Renamed(t.rows, id, name, color));
    RenamedValid(t, id, name, color);
    forall p | p in t.rows && p.id != id
      ensures p in t'.rows
    {
      var i :| 0 <= i < |t.rows| && t.rows[i] == p;
      assert t'.rows[i] == p;
    }
    match ProfileById(t.rows, id)
    case None =>
      assert t'.rows == t.rows;
    case Some(p) =>
      var i :| 0 <= i < |t.rows| && t.rows[i] == p;
      assert t'.rows[i] == p.(name := name, color := color);
      ProfileByIdUnique(t'.rows, t'.rows[i]);
  }

  lemma RenamedValid(t: ProfileTable, id: int, name: string, color: string)
    requires ProfilesValid(t) && !NameTaken(t.rows, name, Some(id))
    ensures ProfilesValid(t.(rows := Renamed(t.rows, id, name, color)))
  {
    var r := Renamed(t.rows, id, name, color);
    forall i, j | 0 <= i < j < |r|
      ensures ProfileIdOf(r[i]) != ProfileIdOf(r[j]) && ProfileNameOf(r[i]) != ProfileNameOf(r[j])
    {
      assert ProfileIdOf(t.rows[i]) != ProfileIdOf(t.rows[j]) && ProfileNameOf(t.rows[i]) != ProfileNameOf(t.rows[j]);
    }
  }

  /** The soft delete keeps every row, id and name, changes nothing but
      the `active` flag of the row with that id, and therefore keeps the
      constraints. */
  lemma DeactivatedSpec(t: ProfileTable, id: int)
    requires ProfilesValid(t)
    ensures var t' := t.(rows := Deactivated(t.rows, id));
      && ProfilesValid(t')
      && |t'.rows| == |t.rows|
      && (forall i :: 0 <= i < |t.rows| ==> t'.rows[i].(active := t.rows[i].active) == t.rows[i])
      && (forall i :: 0 <= i < |t.rows| ==> t'.rows[i].active == (t.rows[i].active && t.rows[i].id != id))
  {
    var t' := t.(rows := Deactivated(t.rows, id));
    forall i, j | 0 <= i < j < |t'.rows|
      ensures ProfileIdOf(t'.rows[i]) != ProfileIdOf(t'.rows[j]) && ProfileNameOf(t'.rows[i]) != ProfileNameOf(t'.rows[j])
    {
      assert ProfileIdOf(t.rows[i]) != ProfileIdOf(t.rows[j]) && ProfileNameOf(t.rows[i]) != ProfileNameOf(t.rows[j]);
    }
  }

  /** After the soft delete the profile is missing from the active listing
      but still in the full listing, inactive. */
  lemma DeactivatedListings(rows: seq<Profile>, id: int)
    requires ProfileById(rows, id).Some?
    ensures forall p :: p in AllProfiles(Deactivated(rows, id), true) ==> p.id != id
    ensures var p := ProfileById(rows, id).value;
      p.(active := false) in AllProfiles(Deactivated(rows, id), false)
  {
    var d := Deactivated(rows, id);
    AllProfilesSpec(d, true);
    AllProfilesSpec(d, false);
    forall p | p in d && p.active
      ensures p.id != id
    {
      var i :| 0 <= i < |d| && d[i] == p;
    }
    var p := ProfileById(rows, id).value;
    var i :| 0 <= i < |rows| && rows[i] == p;
    assert d[i] == p.(active := false);
  }

  lemma {:induction false} ProfileByIdDeactivated(rows: seq<Profile>, id: int, x: int)
    ensures ProfileById(Deactivated(rows, id), x) ==
      match ProfileById(rows, x) case None => None case Some(p) => Some(if p.id == id then p.(active := false) else p)
  {
    if rows != [] {
      assert Deactivated(rows, id)[1..] == Deactivated(rows[1..], id);
      ProfileByIdDeactivated(rows[1..], id, x);
    }
  }

  /** A soft-deleted profile's sales are still listed, with the same name
      and colour: the range listing does not change at all. */
  lemma DeactivationKeepsHistory(rows: seq<Profile>, id: int, sales: seq<Sale>, lo: Date, hi: Date, profileId: Option<int>)
    ensures SalesByDateRange(Deactivated(rows, id), sales, lo, hi, profileId) == SalesByDateRange(rows, sales, lo, hi, profileId)
  {
    JoinedDeactivated(rows, id, sales);
  }

  lemma {:induction false} JoinedDeactivated(rows: seq<Profile>, id: int, sales: seq<Sale>)
    ensures Joined(Deactivated(rows, id), sales) == Joined(rows, sales)
  {
    if sales != [] {
      ProfileByIdDeactivated(rows, id, sales[0].profileId);
      JoinedDeactivated(rows, id, sales[1..]);
    }
  }

  // ---------------------------------------------------------------------
  // initDefaultData

  /** The two profiles seeded into an empty table, with their colours. */
  const DefaultProfiles: seq<(string, string)> := [("@judourado.shop", "#FE2C55"), ("@mariadourado.shop", "#25F4EE")]
  const MetaKey := "monthly_meta"
  const DefaultMeta := "15000"

  /** Inserting the pairs of `d` one after another. */
  function SeedProfiles(t: ProfileTable, d: seq<(string, string)>, now: Timestamp): ProfileTable {
    if d == [] then t
    else
      var last := d[|d| - 1];
      InsertProfile(SeedProfiles(t, d[..|d| - 1], now), last.0, last.1, now)
  }

  /** The profile half of initDefaultData: seed only an empty table. */
  function SeedIfEmpty(t: ProfileTable, now: Timestamp): ProfileTable {
    if t.rows == [] then SeedProfiles(t, DefaultProfiles, now) else t
  }

  /** The settings half of initDefaultData: write the default target only
      when the key is absent. */
  function WithDefaultMeta(st: Settings, now: Timestamp): Settings {
    if MetaKey in st then st else st[MetaKey := SettingRow(DefaultMeta, now)]
  }

  /** `INSERT ... ON CONFLICT(key) DO UPDATE`: both branches leave the key
      with the new value and `updated_at` at now. */
  function PutSetting(st: Settings, key: string, value: string, now: Timestamp): Settings {
    st[key := SettingRow(value, now)]
  }

  /** setSetting makes getSetting return the new value and leaves every
      other key as it was. */
  lemma PutSettingSpec(st: Settings, key: string, value: string, now: Timestamp, other: string)
    requires other != key
    ensures GetSetting(PutSetting(st, key, value, now), key) == Some(value)
    ensures GetSetting(PutSetting(st, key, value, now), other) == GetSetting(st, other)
  {
  }

  /** Seeding an empty table yields exactly the two default profiles, active,
      under consecutive ids, and keeps the constraints. A table that already
      holds profiles is left alone. */
  lemma SeedIfEmptySpec(t: ProfileTable, now: Timestamp)
    requires ProfilesValid(t)
    ensures var t' := SeedIfEmpty(t, now);
      && ProfilesValid(t')
      && (t.rows != [] ==> t' == t)
      && (t.rows == [] ==> t'.rows == [
            Profile(t.nextId, "@judourado.shop", "#FE2C55", true, now),
            Profile(t.nextId + 1, "@mariadourado.shop", "#25F4EE", true, now)])
  {
    if t.rows == [] {
      var d := DefaultProfiles;
      SeedDefaults(t, now);
      var t1 := InsertProfile(t, d[0].0, d[0].1, now);
      InsertProfileValid(t, d[0].0, d[0].1, now);
      assert !NameTaken(t1.rows, d[1].0, None) by {
        assert t1.rows == [Profile(t.nextId, d[0].0, d[0].1, true, now)];
      }
      InsertProfileValid(t1, d[1].0, d[1].1, now);
    }
  }

  /** Seeding inserts the two default profiles one after the other. */
  lemma SeedDefaults(t: ProfileTable, now: Timestamp)
    ensures var d := DefaultProfiles;
      SeedProfiles(t, d, now) == InsertProfile(InsertProfile(t, d[0].0, d[0].1, now), d[1].0, d[1].1, now)
  {
    var d := DefaultProfiles;
    var t1 := InsertProfile(t, d[0].0, d[0].1, now);
    assert d[..|d| - 1] == [d[0]];
    assert SeedProfiles(t, [d[0]], now) == t1 by {
      assert [d[0]][..0] == [];
      assert SeedProfiles(t, [], now) == t;
    }
  }

  /** Running initDefaultData a second time, at any later moment, changes
      nothing. */
  lemma InitDefaultDataIdempotent(t: ProfileTable, st: Settings, now: Timestamp, later: Timestamp)
    ensures SeedIfEmpty(SeedIfEmpty(t, now), later) == SeedIfEmpty(t, now)
    ensures WithDefaultMeta(WithDefaultMeta(st, now), later) == WithDefaultMeta(st, now)
    ensures GetSetting(WithDefaultMeta(st, now), MetaKey) == Some(GetSetting(st, MetaKey).GetOr(DefaultMeta))
  {
    if t.rows == [] {
      var d := DefaultProfiles;
      assert d[..2 - 1] == d[..1];
      assert |SeedProfiles(t, d, now).rows| == |SeedProfiles(t, d[..1], now).rows| + 1;
    }
  }
}
