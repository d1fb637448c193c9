/** The request handlers of the dashboard's HTTP API that carry logic of
    their own: parameter checks, the batch save, the monthly target and
    the statistics built on it, the profile guards, the CSV export and the
    parsing of the `Authorization` header. A handler takes the decoded
    request fields and answers with an HTTP status; `parse` stands for
    `parseFloat` (None for NaN), `show` for `Number.prototype.toString`
    and `fixed2` for `toFixed(2)`. */
module Server {
  import opened Wrappers
  import Text
  import opened Seqs
  import opened Ledger
  import opened Store

  const BadRequest := 400
  const Unauthorized := 401
  const Forbidden := 403
  const NotFound := 404
  const ServerError := 500
  const Ok := 200

  // ---------------------------------------------------------------------
  // authenticateToken

  /** `authHeader && authHeader.split(' ')[1]`: the second space-separated
      word of the header, when there is one and it is not empty. */
  function BearerToken(header: Option<string>): (t: Option<string>)
    ensures t.Some? ==> t.value != "" && ' ' !in t.value
    ensures t.Some? ==> Truthy(header) && |Text.Split(header.value, ' ')| >= 2 && Text.Split(header.value, ' ')[1] == t.value
  {
    if !Truthy(header) then None
    else
      var parts := Text.Split(header.value, ' ');
      if |parts| < 2 || parts[1] == "" then None else Some(parts[1])
  }

  /** 401 without a token, 403 when `verify` rejects it, 200 otherwise. */
  function AuthStatus(header: Option<string>, verify: string -> bool): (status: int)
    ensures status == Unauthorized <==> BearerToken(header).None?
    ensures status == Ok <==> BearerToken(header).Some? && verify(BearerToken(header).value)
  {
    match BearerToken(header)
    case None => Unauthorized
    case Some(t) => if verify(t) then Ok else Forbidden
  }

  /** The header the page sends, `Bearer <token>`, yields the token back
      for any token without spaces, so the outcome rests on `verify` alone. */
  lemma BearerRoundTrip(token: string, verify: string -> bool)
    requires token != "" && ' ' !in token
    ensures BearerToken(Some("Bearer " + token)) == Some(token)
    ensures AuthStatus(Some("Bearer " + token), verify) == if verify(token) then Ok else Forbidden
  {
    var parts := ["Bearer", token];
    assert Text.Join(parts, ' ') == "Bearer " + token by {
      assert Text.Join(parts[1..], ' ') == token;
    }
    Text.SplitJoin(parts, ' ');
  }

  // ---------------------------------------------------------------------
  // Profile routes

  /** `!name || name.trim() === ''` rejects; otherwise the trimmed name is
      used. Accepted exactly when the name has a character other than
      white space; the name kept is non-empty and already trimmed. */
  function AcceptedName(name: Option<string>): (r: Option<string>)
    ensures r.Some? <==> name.Some? && exists k :: 0 <= k < |name.value| && !Text.IsSpace(name.value[k])
    ensures r.Some? ==> r.value != "" && Text.Trim(r.value) == r.value
    ensures r.Some? ==> r.value == Text.Trim(name.value)
  {
    if !Truthy(name) then None
    else
      Text.TrimEmptyIff(name.value);
      Text.TrimIdempotent(name.value);
      var t := Text.Trim(name.value);
      if t == "" then None else Some(t)
  }

  /** POST /api/profiles. Answers 400 for a blank name or a name already
      taken, and otherwise creates the profile under the trimmed name and
      returns it. */
  method CreateProfileRoute(db: DatabaseManager, name: Option<string>, color: Option<string>, generated: string, now: Timestamp)
    returns (status: int, created: Option<Profile>)
    requires db.Valid()
    modifies db
    ensures db.Valid()
    ensures AcceptedName(name).None? ==> status == BadRequest && db.State() == old(db.State())
    ensures AcceptedName(name).Some? && NameTaken(old(db.profiles.rows), AcceptedName(name).value, None) ==>
      status == BadRequest && db.State() == old(db.State())
    ensures AcceptedName(name).Some? && !NameTaken(old(db.profiles.rows), AcceptedName(name).value, None) ==>
      && status == Ok
      && db.profiles == InsertProfile(old(db.profiles), AcceptedName(name).value, if Truthy(color) then color.value else generated, now)
      && created == Some(Profile(old(db.profiles.nextId), AcceptedName(name).value, if Truthy(color) then color.value else generated, true, now))
      && db.sales == old(db.sales) && db.settings == old(db.settings)
  {
    var n := AcceptedName(name);
    if n.None? {
      return BadRequest, None;
    }
    var c := if Truthy(color) then color.value else generated;
    ghost var t0 := db.profiles;
    if !NameTaken(t0.rows, n.value, None) {
      InsertProfileValid(t0, n.value, c, now);
    }
    var r := db.CreateProfile(n.value, color, generated, now);
    if r.Failure? {
      return BadRequest, None;
    }
    created := ProfileById(db.profiles.rows, r.value);
    status := Ok;
  }

  /** PUT /api/profiles/:id. The name is checked first (400), then the
      profile must exist (404); a missing or empty colour keeps the
      profile's own; a name held by another profile answers 400. */
  method UpdateProfileRoute(db: DatabaseManager, id: int, name: Option<string>, color: Option<string>) returns (status: int)
    requires db.Valid()
    modifies db
    ensures db.Valid()
    ensures AcceptedName(name).None? ==> status == BadRequest && db.State() == old(db.State())
    ensures AcceptedName(name).Some? && ProfileById(old(db.profiles.rows), id).None? ==> status == NotFound && db.State() == old(db.State())
    ensures AcceptedName(name).Some? && ProfileById(old(db.profiles.rows), id).Some? ==>
      var n := AcceptedName(name).value;
      var c := if Truthy(color) then color.value else ProfileById(old(db.profiles.rows), id).value.color;
      if NameTaken(old(db.profiles.rows), n, Some(id)) then status == BadRequest && db.State() == old(db.State())
      else (status == Ok && db.profiles == old(db.profiles).(rows := Renamed(old(db.profiles.rows), id, n, c))
            && db.sales == old(db.sales) && db.settings == old(db.settings))
  {
    var n := AcceptedName(name);
    if n.None? {
      return BadRequest;
    }
    var profile := ProfileById(db.profiles.rows, id);
    if profile.None? {
      return NotFound;
    }
    var c := if Truthy(color) then color.value else profile.value.color;
    var r := db.UpdateProfile(id, n.value, c);
    if r.Fail? {
      return BadRequest;
    }
    status := Ok;
  }

  /** DELETE /api/profiles/:id: 404 for an unknown id, otherwise the soft
      delete. */
  method DeleteProfileRoute(db: DatabaseManager, id: int) returns (status: int)
    requires db.Valid()
    modifies db
    ensures db.Valid()
    ensures ProfileById(old(db.profiles.rows), id).None? ==> status == NotFound && db.State() == old(db.State())
    ensures ProfileById(old(db.profiles.rows), id).Some? ==>
      status == Ok && db.profiles == old(db.profiles).(rows := Deactivated(old(db.profiles.rows), id))
      && db.sales == old(db.sales) && db.settings == old(db.settings)
  {
    if ProfileById(db.profiles.rows, id).None? {
      return NotFound;
    }
    db.DeleteProfile(id);
    status := Ok;
  }

  // ---------------------------------------------------------------------
  // Sales routes

  /** GET /api/sales: both dates are required; the listing is
      getSalesByDateRange, restricted to one profile when one is given. */
  method ListSales(db: DatabaseManager, startDate: Option<Date>, endDate: Option<Date>, profileId: Option<int>)
    returns (status: int, rows: seq<SaleView>)
    ensures status == BadRequest <==> !Truthy(startDate) || !Truthy(endDate)
    ensures status == BadRequest ==> rows == []
    ensures status != BadRequest ==> status == Ok
    ensures status != BadRequest ==> rows == SalesByDateRange(db.profiles.rows, db.sales.rows, startDate.value, endDate.value, profileId)
  {
    if !Truthy(startDate) || !Truthy(endDate) {
      return BadRequest, [];
    }
    rows := SalesByDateRange(db.profiles.rows, db.sales.rows, startDate.value, endDate.value, profileId);
    status := Ok;
  }

  /** One element of the `sales` array of POST /api/sales: the profile id
      (None when absent) and the raw amount. */
  datatype SaleInput = SaleInput(profileId: Option<int>, amount: Option<string>)

  /** `parseFloat(sale.amount) || 0`: the parsed amount, or 0 when the
      amount is missing or does not parse. */
  function Coerced(raw: Option<string>, parse: string -> Option<real>): (a: real)
    ensures raw.None? || parse(raw.value).None? ==> a == 0.0
    ensures raw.Some? && parse(raw.value).Some? ==> a == parse(raw.value).value
  {
    match raw
    case None => 0.0
    case Some(s) => parse(s).GetOr(0.0)
  }

  /** `notes || null`. */
  function SharedNotes(notes: Option<string>): (n: Option<string>)
    ensures n.Some? <==> Truthy(notes)
    ensures n.Some? ==> n == notes
  {
    if Truthy(notes) then notes else None
  }

  predicate AllHaveProfile(items: seq<SaleInput>) {
    forall j :: 0 <= j < |items| ==> items[j].profileId.Some?
  }

  /** Whether createOrUpdateSale accepts the element: it has a profile id
      and a profile row has that id. */
  predicate Accepted(x: SaleInput, profiles: seq<Profile>) {
    x.profileId.Some? && ProfileById(profiles, x.profileId.value).Some?
  }

  predicate AllAccepted(items: seq<SaleInput>, profiles: seq<Profile>) {
    forall j :: 0 <= j < |items| ==> Accepted(items[j], profiles)
  }

  /** The index of the first element createOrUpdateSale rejects, or the
      length. */
  function FirstRejected(items: seq<SaleInput>, profiles: seq<Profile>): (k: nat)
    ensures k <= |items| && AllAccepted(items[..k], profiles)
    ensures k < |items| ==> !Accepted(items[k], profiles)
  {
    if items == [] || !Accepted(items[0], profiles) then 0
    else
      var k := FirstRejected(items[1..], profiles);
      assert items[..k + 1] == [items[0]] + items[1..][..k];
      1 + k
  }

  /** The sales table after one upsert per element of `items`, in order. */
  function UpsertAll(t: SalesTable, date: Date, items: seq<SaleInput>, notes: Option<string>, now: Timestamp,
                     parse: string -> Option<real>): SalesTable
    requires AllHaveProfile(items)
  {
    if items == [] then t
    else
      var last := items[|items| - 1];
      Upserted(UpsertAll(t, date, items[..|items| - 1], notes, now, parse), date, last.profileId.value,
               Coerced(last.amount, parse), notes, now)
  }

  /** POST /api/sales. A missing date or a `sales` value that is not an
      array answers 400 and writes nothing. Otherwise the elements are
      upserted one by one under the same date and notes; the first element
      without a profile id, or whose id names no profile, makes its insert
      fail, which ends the loop with 500 while the upserts before it stay
      written. */
  method SaveSales(db: DatabaseManager, date: Option<Date>, items: Option<seq<SaleInput>>, notes: Option<string>,
                   now: Timestamp, parse: string -> Option<real>) returns (status: int)
    requires db.Valid()
    modifies db
    ensures db.Valid()
    ensures db.profiles == old(db.profiles) && db.settings == old(db.settings)
    ensures !Truthy(date) || items.None? ==> status == BadRequest && db.sales == old(db.sales)
    ensures Truthy(date) && items.Some? ==>
      var k := FirstRejected(items.value, old(db.profiles.rows));
      && AllHaveProfile(items.value[..k])
      && db.sales == UpsertAll(old(db.sales), date.value, items.value[..k], SharedNotes(notes), now, parse)
      && status == (if k == |items.value| then Ok else ServerError)
  {
    if !Truthy(date) {
      return BadRequest;
    }
    if items.None? {
      return BadRequest;
    }
    var xs := items.value;
    var n := SharedNotes(notes);
    ghost var rows := db.profiles.rows;
    var i := 0;
    while i < |xs|
      invariant 0 <= i <= |xs| && AllHaveProfile(xs[..i]) && AllAccepted(xs[..i], rows)
      invariant db.Valid()
      invariant db.profiles == old(db.profiles) && db.settings == old(db.settings)
      invariant db.sales == UpsertAll(old(db.sales), date.value, xs[..i], n, now, parse)
    {
      var r := db.CreateOrUpdateSale(date.value, xs[i].profileId, Coerced(xs[i].amount, parse), n, now);
      if r.Fail? {
        FirstRejectedAt(xs, rows, i);
        return ServerError;
      }
      UpsertAllSnoc(old(db.sales), date.value, xs, i, n, now, parse);
      AcceptedSnoc(xs, rows, i);
      i := i + 1;
    }
    FirstRejectedAt(xs, rows, |xs|);
    status := Ok;
  }

  /** The first rejected element is the one the loop stops at. */
  lemma {:induction false} FirstRejectedAt(items: seq<SaleInput>, profiles: seq<Profile>, i: nat)
    requires i <= |items| && AllAccepted(items[..i], profiles)
    requires i < |items| ==> !Accepted(items[i], profiles)
    ensures FirstRejected(items, profiles) == i && items[..i] == items[..FirstRejected(items, profiles)]
  {
  }

  lemma AcceptedSnoc(items: seq<SaleInput>, profiles: seq<Profile>, i: nat)
    requires i < |items| && AllAccepted(items[..i], profiles) && Accepted(items[i], profiles)
    ensures AllAccepted(items[..i + 1], profiles)
  {
    assert forall j :: 0 <= j < i + 1 ==> items[..i + 1][j] == items[j];
  }

  lemma UpsertAllSnoc(t: SalesTable, date: Date, items: seq<SaleInput>, i: nat, notes: Option<string>, now: Timestamp,
                      parse: string -> Option<real>)
    requires i < |items| && AllHaveProfile(items[..i]) && items[i].profileId.Some?
    ensures AllHaveProfile(items[..i + 1])
    ensures UpsertAll(t, date, items[..i + 1], notes, now, parse)
         == Upserted(UpsertAll(t, date, items[..i], notes, now, parse), date, items[i].profileId.value,
                     Coerced(items[i].amount, parse), notes, now)
  {
    assert items[..i + 1][..i] == items[..i];
    assert forall j :: 0 <= j < i + 1 ==> items[..i + 1][j] == items[j];
  }

  /** The index of the last element for profile `p`, if any. */
  function LastFor(items: seq<SaleInput>, p: int): (r: Option<nat>)
    ensures r.Some? ==> r.value < |items| && items[r.value].profileId == Some(p)
    ensures r.Some? ==> forall j :: r.value < j < |items| ==> items[j].profileId != Some(p)
    ensures r.None? ==> forall j :: 0 <= j < |items| ==> items[j].profileId != Some(p)
  {
    if items == [] then None
    else if items[|items| - 1].profileId == Some(p) then Some(|items| - 1)
    else LastFor(items[..|items| - 1], p)
  }

  /** A batch keeps the table's constraints. */
  lemma {:induction false} UpsertAllValid(t: SalesTable, date: Date, items: seq<SaleInput>, notes: Option<string>,
                                          now: Timestamp, parse: string -> Option<real>)
    requires SalesValid(t) && AllHaveProfile(items)
    ensures SalesValid(UpsertAll(t, date, items, notes, now, parse))
  {
    if items != [] {
      var init := items[..|items| - 1];
      var last := items[|items| - 1];
      assert AllHaveProfile(init);
      UpsertAllValid(t, date, init, notes, now, parse);
      UpsertedValid(UpsertAll(t, date, init, notes, now, parse), date, last.profileId.value, Coerced(last.amount, parse), notes, now);
    }
  }

  /** What a batch leaves behind: for each profile named in it, the row of
      that date holds the amount of the profile's last element and the
      shared notes (later elements overwrite earlier ones); the row of
      every other key is as it was. */
  lemma {:induction false} UpsertAllEffect(t: SalesTable, date: Date, items: seq<SaleInput>, notes: Option<string>,
                                           now: Timestamp, parse: string -> Option<real>, d: Date, p: int)
    requires SalesValid(t) && AllHaveProfile(items)
    ensures d != date || LastFor(items, p).None? ==>
      SaleByKey(UpsertAll(t, date, items, notes, now, parse).rows, d, p) == SaleByKey(t.rows, d, p)
    ensures d == date && LastFor(items, p).Some? ==>
      && SaleByKey(UpsertAll(t, date, items, notes, now, parse).rows, d, p).Some?
      && SaleByKey(UpsertAll(t, date, items, notes, now, parse).rows, d, p).value.amount
         == Coerced(items[LastFor(items, p).value].amount, parse)
      && SaleByKey(UpsertAll(t, date, items, notes, now, parse).rows, d, p).value.notes == notes
  {
    if d != date || LastFor(items, p).None? {
      UpsertAllOther(t, date, items, notes, now, parse, d, p);
    } else {
      UpsertAllLast(t, date, items, notes, now, parse, p);
    }
  }

  /** A key the batch does not name keeps its row. */
  lemma {:induction false} UpsertAllOther(t: SalesTable, date: Date, items: seq<SaleInput>, notes: Option<string>,
                                          now: Timestamp, parse: string -> Option<real>, d: Date, p: int)
    requires SalesValid(t) && AllHaveProfile(items)
    requires d != date || LastFor(items, p).None?
    ensures SaleByKey(UpsertAll(t, date, items, notes, now, parse).rows, d, p) == SaleByKey(t.rows, d, p)
  {
    if items != [] {
      var init := items[..|items| - 1];
      var last := items[|items| - 1];
      assert AllHaveProfile(init);
      assert d == date ==> LastFor(init, p).None?;
      UpsertAllOther(t, date, init, notes, now, parse, d, p);
      UpsertAllValid(t, date, init, notes, now, parse);
      var mid := UpsertAll(t, date, init, notes, now, parse);
      UpsertedOtherKey(mid, date, last.profileId.value, Coerced(last.amount, parse), notes, now, d, p);
    }
  }

  /** A key the batch names holds the amount of its last element and the
      shared notes. */
  lemma {:induction false} UpsertAllLast(t: SalesTable, date: Date, items: seq<SaleInput>, notes: Option<string>,
                                         now: Timestamp, parse: string -> Option<real>, p: int)
    requires SalesValid(t) && AllHaveProfile(items)
    requires LastFor(items, p).Some?
    ensures var row := SaleByKey(UpsertAll(t, date, items, notes, now, parse).rows, date, p);
      && row.Some?
      && row.value.amount == Coerced(items[LastFor(items, p).value].amount, parse)
      && row.value.notes == notes
  {
    var init := items[..|items| - 1];
    var last := items[|items| - 1];
    assert AllHaveProfile(init);
    UpsertAllValid(t, date, init, notes, now, parse);
    var mid := UpsertAll(t, date, init, notes, now, parse);
    var q := last.profileId.value;
    if q == p {
      UpsertedRow(mid, date, q, Coerced(last.amount, parse), notes, now);
    } else {
      assert LastFor(items, p) == LastFor(init, p);
      UpsertAllLast(t, date, init, notes, now, parse, p);
      UpsertedOtherKey(mid, date, q, Coerced(last.amount, parse), notes, now, date, p);
    }
  }

  /** DELETE /api/sales/:id: always a success, whether or not the id
      exists. */
  method DeleteSaleRoute(db: DatabaseManager, id: int) returns (status: int)
    requires db.Valid()
    modifies db
    ensures db.Valid()
    ensures status == Ok
    ensures db.sales == WithoutSale(old(db.sales), id)
    ensures db.profiles == old(db.profiles) && db.settings == old(db.settings)
  {
    db.DeleteSale(id);
    status := Ok;
  }

  // ---------------------------------------------------------------------
  // Monthly target and dashboard

  const FallbackMeta: real := 15000.0

  /** `parseFloat(db.getSetting('monthly_meta')) || 15000`: the stored
      target when it parses to a non-zero number, 15000 otherwise. Never 0. */
  function MonthlyMeta(setting: Option<string>, parse: string -> Option<real>): (m: real)
    ensures m != 0.0
    ensures setting.Some? && parse(setting.value).Some? && parse(setting.value).value != 0.0 ==> m == parse(setting.value).value
    ensures setting.None? || parse(setting.value).None? || parse(setting.value).value == 0.0 ==> m == FallbackMeta
  {
    match setting
    case None => FallbackMeta
    case Some(s) =>
      match parse(s)
      case None => FallbackMeta
      case Some(x) => if x == 0.0 then FallbackMeta else x
  }

  /** GET /api/settings/meta. */
  method GetMeta(db: DatabaseManager, parse: string -> Option<real>) returns (meta: real)
    ensures meta == MonthlyMeta(GetSetting(db.settings, MetaKey), parse)
    ensures meta != 0.0
  {
    meta := MonthlyMeta(GetSetting(db.settings, MetaKey), parse);
  }

  /** POST /api/settings/meta: a missing, zero or negative target answers
      400 and stores nothing; otherwise its text is stored. */
  method SetMeta(db: DatabaseManager, meta: Option<real>, show: real -> string, now: Timestamp) returns (status: int)
    requires db.Valid()
    modifies db
    ensures db.Valid()
    ensures meta.None? || meta.value <= 0.0 ==> status == BadRequest && db.State() == old(db.State())
    ensures meta.Some? && meta.value > 0.0 ==>
      status == Ok && db.settings == PutSetting(old(db.settings), MetaKey, show(meta.value), now)
      && db.profiles == old(db.profiles) && db.sales == old(db.sales)
  {
    if meta.None? || meta.value <= 0.0 {
      return BadRequest;
    }
    db.SetSetting(MetaKey, show(meta.value), now);
    status := Ok;
  }

  /** A target accepted by POST /api/settings/meta is the one the
      dashboard and GET /api/settings/meta use afterwards, provided its
      text parses back to the same number. */
  lemma MetaRoundTrip(st: Settings, m: real, show: real -> string, parse: string -> Option<real>, now: Timestamp)
    requires m > 0.0 && parse(show(m)) == Some(m)
    ensures MonthlyMeta(GetSetting(PutSetting(st, MetaKey, show(m), now), MetaKey), parse) == m
  {
    PutSettingSpec(st, MetaKey, show(m), now, "");
  }

  /** `p` is `part` as a percentage of `whole`. */
  predicate IsPercentOf(p: real, part: real, whole: real) {
    p * whole == part * 100.0
  }

  /** `(part / whole) * 100`, for a nonzero `whole`. */
  function Percent(part: real, whole: real): (p: real)
    requires whole != 0.0
    ensures IsPercentOf(p, part, whole)
  {
    part / whole * 100.0
  }

  /** The statistics of GET /api/stats/dashboard. */
  datatype DashboardStats = DashboardStats(
    totalSales: real, salesByProfile: seq<ProfileTotal>, monthlyMeta: real,
    currentMonthSales: real, lastMonthSales: real, metaProgress: real)

  /** GET /api/stats/dashboard. The bounds of the current and the previous
      month come from the clock and are passed in. The progress is the
      current month's total as a percentage of the target, which is never
      0. */
  method Dashboard(db: DatabaseManager, startDate: Option<Date>, endDate: Option<Date>,
                   month: (Date, Date), lastMonth: (Date, Date), parse: string -> Option<real>)
    returns (stats: DashboardStats)
    ensures stats.totalSales == TotalSales(db.sales.rows, startDate, endDate)
    ensures stats.salesByProfile == SalesByProfile(db.profiles.rows, db.sales.rows, startDate, endDate)
    ensures stats.monthlyMeta == MonthlyMeta(GetSetting(db.settings, MetaKey), parse)
    ensures stats.currentMonthSales == TotalSales(db.sales.rows, Some(month.0), Some(month.1))
    ensures stats.lastMonthSales == TotalSales(db.sales.rows, Some(lastMonth.0), Some(lastMonth.1))
    ensures stats.monthlyMeta != 0.0
    ensures IsPercentOf(stats.metaProgress, stats.currentMonthSales, stats.monthlyMeta)
  {
    var total := TotalSales(db.sales.rows, startDate, endDate);
    var byProfile := SalesByProfile(db.profiles.rows, db.sales.rows, startDate, endDate);
    var meta := MonthlyMeta(GetSetting(db.settings, MetaKey), parse);
    var current := TotalSales(db.sales.rows, Some(month.0), Some(month.1));
    var last := TotalSales(db.sales.rows, Some(lastMonth.0), Some(lastMonth.1));
    stats := DashboardStats(total, byProfile, meta, current, last, Percent(current, meta));
  }

  // ---------------------------------------------------------------------
  // GET /api/export/csv

  const Bom := "\U{FEFF}"
  const CsvHeader := "Data,Perfil,Valor,Observa\U{00E7}\U{00F5}es\n"

  /** A field enclosed in double quotes. */
  function Wrap(x: string): string {
    "\"" + x + "\""
  }

  /** One line of the export: the four fields in double quotes, separated
      by commas. Only the notes have their quotes doubled; missing notes
      are written empty. */
  function CsvLine(v: SaleView, fixed2: real -> string): string {
    Wrap(v.sale.date) + "," + Wrap(v.profileName) + "," + Wrap(fixed2(v.sale.amount)) + ","
      + Wrap(Text.DoubleQuotes(v.sale.notes.GetOr(""))) + "\n"
  }

  function CsvLines(rows: seq<SaleView>, fixed2: real -> string): string {
    if rows == [] then "" else CsvLine(rows[0], fixed2) + CsvLines(rows[1..], fixed2)
  }

  /** The whole response body. */
  function CsvDocument(rows: seq<SaleView>, fixed2: real -> string): string {
    Bom + (CsvHeader + CsvLines(rows, fixed2))
  }

  lemma {:induction false} CsvLinesSnoc(rows: seq<SaleView>, v: SaleView, fixed2: real -> string)
    ensures CsvLines(rows + [v], fixed2) == CsvLines(rows, fixed2) + CsvLine(v, fixed2)
  {
    if rows == [] {
      assert [v][1..] == [];
    } else {
      assert (rows + [v])[1..] == rows[1..] + [v];
      CsvLinesSnoc(rows[1..], v, fixed2);
      var x := CsvLine(rows[0], fixed2);
      var y := CsvLines(rows[1..], fixed2);
      var z := CsvLine(v, fixed2);
      assert x + (y + z) == (x + y) + z;
    }
  }

  /** The export answers 400 without both dates; otherwise the body is the
      BOM, the header and one line per row of getSalesByDateRange, in its
      order. */
  method ExportCsv(db: DatabaseManager, startDate: Option<Date>, endDate: Option<Date>, profileId: Option<int>,
                   fixed2: real -> string) returns (status: int, body: string)
    ensures status == BadRequest <==> !Truthy(startDate) || !Truthy(endDate)
    ensures status == BadRequest ==> body == ""
    ensures status != BadRequest ==> status == Ok
    ensures status != BadRequest ==>
      body == CsvDocument(SalesByDateRange(db.profiles.rows, db.sales.rows, startDate.value, endDate.value, profileId), fixed2)
  {
    if !Truthy(startDate) || !Truthy(endDate) {
      return BadRequest, "";
    }
    var rows := SalesByDateRange(db.profiles.rows, db.sales.rows, startDate.value, endDate.value, profileId);
    body := BuildCsv(rows, fixed2);
    status := Ok;
  }

  /** The `csv +=` loop of the export, followed by the BOM. */
  method BuildCsv(rows: seq<SaleView>, fixed2: real -> string) returns (body: string)
    ensures body == CsvDocument(rows, fixed2)
  {
    var csv := CsvHeader;
    for i := 0 to |rows|
      invariant csv == CsvHeader + CsvLines(rows[..i], fixed2)
    {
      var line := CsvLine(rows[i], fixed2);
      assert rows[..i + 1] == rows[..i] + [rows[i]];
      CsvLinesSnoc(rows[..i], rows[i], fixed2);
      Reassociate(CsvHeader, CsvLines(rows[..i], fixed2), line);
      csv := csv + line;
    }
    assert rows[..|rows|] == rows;
    body := Bom + csv;
  }

  // A reader for the export, used to state what the export preserves.

  /** Reads `n` double-quoted fields separated by commas and ended by a
      line feed; gives the fields and what follows the line. */
  function ReadFields(r: string, n: nat): (res: Option<(seq<string>, string)>)
    ensures res.Some? ==> |res.value.0| == n && |res.value.1| < |r|
    decreases n
  {
    if n == 0 || r == [] || r[0] != '"' then None
    else
      match Text.ReadQuoted(r[1..])
      case None => None
      case Some(p) =>
        var (field, after) := p;
        if after == [] then None
        else if n == 1 && after[0] == '\n' then Some(([field], after[1..]))
        else if n > 1 && after[0] == ',' then
          match ReadFields(after[1..], n - 1)
          case None => None
          case Some(q) => Some(([field] + q.0, q.1))
        else None
  }

  /** Reads four-field records up to the end of the text. */
  function ReadRecords(r: string): Option<seq<seq<string>>>
    decreases |r|
  {
    if r == [] then Some([])
    else
      match ReadFields(r, 4)
      case None => None
      case Some(p) =>
        match ReadRecords(p.1)
        case None => None
        case Some(rest) => Some([p.0] + rest)
  }

  /** Reads a whole export: the BOM, the header line, then the records. */
  function ReadCsv(doc: string): Option<seq<seq<string>>> {
    var prefix := Bom + CsvHeader;
    if |doc| >= |prefix| && doc[..|prefix|] == prefix then ReadRecords(doc[|prefix|..]) else None
  }

  /** The four fields a row is exported as. */
  function Fields(v: SaleView, fixed2: real -> string): seq<string> {
    [v.sale.date, v.profileName, fixed2(v.sale.amount), v.sale.notes.GetOr("")]
  }

  /** The records of a listing, row by row. */
  function FieldsOf(rows: seq<SaleView>, fixed2: real -> string): (r: seq<seq<string>>)
    ensures |r| == |rows| && forall i :: 0 <= i < |rows| ==> r[i] == Fields(rows[i], fixed2)
  {
    if rows == [] then [] else [Fields(rows[0], fixed2)] + FieldsOf(rows[1..], fixed2)
  }

  /** Text that reads back as itself once enclosed in double quotes. */
  predicate Plain(s: string) { '"' !in s }

  lemma ReadFieldLast(x: string, rest: string)
    ensures ReadFields(Wrap(Text.DoubleQuotes(x)) + ("\n" + rest), 1) == Some(([x], rest))
  {
    var r := Wrap(Text.DoubleQuotes(x)) + ("\n" + rest);
    Text.ReadDoubleQuotes(x, "\n" + rest);
    assert r[1..] == Text.DoubleQuotes(x) + "\"" + ("\n" + rest);
  }

  lemma ReadFieldCons(x: string, tail: string, n: nat)
    requires n > 1 && ReadFields(tail, n - 1).Some?
    ensures ReadFields(Wrap(Text.DoubleQuotes(x)) + ("," + tail), n)
         == Some(([x] + ReadFields(tail, n - 1).value.0, ReadFields(tail, n - 1).value.1))
  {
    var r := Wrap(Text.DoubleQuotes(x)) + ("," + tail);
    Text.ReadDoubleQuotes(x, "," + tail);
    assert r[1..] == Text.DoubleQuotes(x) + "\"" + ("," + tail);
    assert ("," + tail)[1..] == tail;
  }

  /** `p + q + r` read from the right. */
  lemma Reassociate(p: string, q: string, r: string)
    ensures p + q + r == p + (q + r)
  {
  }

  /** Four fields in the export's layout, grouped from the right. */
  function Nested(a: string, b: string, c: string, d: string, rest: string): string {
    Wrap(a) + ("," + (Wrap(b) + ("," + (Wrap(c) + ("," + (Wrap(Text.DoubleQuotes(d)) + ("\n" + rest)))))))
  }

  /** An exported line followed by `rest`, grouped from the right. */
  lemma CsvLineShape(v: SaleView, fixed2: real -> string, rest: string)
    ensures CsvLine(v, fixed2) + rest
         == Nested(v.sale.date, v.profileName, fixed2(v.sale.amount), v.sale.notes.GetOr(""), rest)
  {
    var a, b, c, d := v.sale.date, v.profileName, fixed2(v.sale.amount), v.sale.notes.GetOr("");
    var wa, wb, wc, wd := Wrap(a), Wrap(b), Wrap(c), Wrap(Text.DoubleQuotes(d));
    var t4 := wd + ("\n" + rest);
    var t3 := wc + ("," + t4);
    var t2 := wb + ("," + t3);
    var l7 := wa + "," + wb + "," + wc + "," + wd;
    var l6 := wa + "," + wb + "," + wc + ",";
    var l5 := wa + "," + wb + "," + wc;
    var l4 := wa + "," + wb + ",";
    var l3 := wa + "," + wb;
    var l2 := wa + ",";
    assert CsvLine(v, fixed2) == l7 + "\n";
    Reassociate(l7, "\n", rest);
    Reassociate(l6, wd, "\n" + rest);
    Reassociate(l5, ",", t4);
    Reassociate(l4, wc, "," + t4);
    Reassociate(l3, ",", t3);
    Reassociate(l2, wb, "," + t3);
    Reassociate(wa, ",", t2);
  }

  /** A field without double quotes in front of `n - 1` readable fields. */
  lemma ReadPlainCons(x: string, tail: string, n: nat, fields: seq<string>, rest: string)
    requires Plain(x) && n > 1 && ReadFields(tail, n - 1) == Some((fields, rest))
    ensures ReadFields(Wrap(x) + ("," + tail), n) == Some(([x] + fields, rest))
  {
    Text.DoubleQuotesNoQuote(x);
    ReadFieldCons(x, tail, n);
  }

  /** Reading four fields laid out as the export writes them. */
  lemma ReadNested(a: string, b: string, c: string, d: string, rest: string)
    requires Plain(a) && Plain(b) && Plain(c)
    ensures ReadFields(Nested(a, b, c, d, rest), 4) == Some(([a, b, c, d], rest))
  {
    var t4 := Wrap(Text.DoubleQuotes(d)) + ("\n" + rest);
    var t3 := Wrap(c) + ("," + t4);
    var t2 := Wrap(b) + ("," + t3);
    ReadFieldLast(d, rest);
    ReadPlainCons(c, t4, 2, [d], rest);
    ReadPlainCons(b, t3, 3, [c] + [d], rest);
    ReadPlainCons(a, t2, 4, [b] + ([c] + [d]), rest);
    assert [a] + ([b] + ([c] + [d])) == [a, b, c, d];
  }

  /** One exported line reads back as the row's four fields, provided the
      date, the profile name and the amount's text hold no double quote
      (they are written unescaped); the notes may hold anything. */
  lemma CsvLineReadBack(v: SaleView, fixed2: real -> string, rest: string)
    requires Plain(v.sale.date) && Plain(v.profileName) && Plain(fixed2(v.sale.amount))
    ensures ReadFields(CsvLine(v, fixed2) + rest, 4) == Some((Fields(v, fixed2), rest))
  {
    CsvLineShape(v, fixed2, rest);
    ReadNested(v.sale.date, v.profileName, fixed2(v.sale.amount), v.sale.notes.GetOr(""), rest);
  }

  /** Reading an export gives back one record per listed row, in the
      listing's order, each holding that row's date, profile name, amount
      text and notes, whenever dates, names and amount texts hold no double
      quote. */
  lemma CsvRoundTrip(rows: seq<SaleView>, fixed2: real -> string)
    requires forall i :: 0 <= i < |rows| ==>
      Plain(rows[i].sale.date) && Plain(rows[i].profileName) && Plain(fixed2(rows[i].sale.amount))
    ensures ReadCsv(CsvDocument(rows, fixed2)) == Some(FieldsOf(rows, fixed2))
  {
    var prefix := Bom + CsvHeader;
    var doc := CsvDocument(rows, fixed2);
    Reassociate(Bom, CsvHeader, CsvLines(rows, fixed2));
    assert doc[..|prefix|] == prefix && doc[|prefix|..] == CsvLines(rows, fixed2);
    RecordsRoundTrip(rows, fixed2);
  }

  lemma {:induction false} RecordsRoundTrip(rows: seq<SaleView>, fixed2: real -> string)
    requires forall i :: 0 <= i < |rows| ==>
      Plain(rows[i].sale.date) && Plain(rows[i].profileName) && Plain(fixed2(rows[i].sale.amount))
    ensures ReadRecords(CsvLines(rows, fixed2)) == Some(FieldsOf(rows, fixed2))
  {
    if rows != [] {
      var tail := CsvLines(rows[1..], fixed2);
      var lines := CsvLines(rows, fixed2);
      CsvLineReadBack(rows[0], fixed2, tail);
      assert lines == CsvLine(rows[0], fixed2) + tail;
      assert ReadFields(lines, 4) == Some((Fields(rows[0], fixed2), tail));
      assert lines != [];
      RecordsRoundTrip(rows[1..], fixed2);
    }
  }
}
