# Sales ledger dashboard — Dafny model

This project models the core of a small sales dashboard for online shop
profiles. The dashboard is a Node.js server over SQLite with a browser page.
Three parts are modelled:

- **The ledger store** (`database.js`, class `DatabaseManager`). It holds three
  tables:
  - `profiles`: id, unique name, colour, `active` flag;
  - `daily_sales`: one row per `(date, profile_id)`, with amount and notes;
  - `settings`: key/value, holding the monthly target `monthly_meta`.

  The class keeps these tables as fields (`Store.DatabaseManager`). Its
  writing methods change them in place:
  - the sale upsert;
  - sale deletion;
  - the profile soft delete, insert and rename;
  - the settings upsert;
  - the seeding of default data.

  Every SQL statement has a meaning in `Ledger`, given as a function of the
  tables' contents: `WHERE` filters, the `JOIN` with `profiles`, `SUM`,
  `COALESCE`, and `ORDER BY` as a sort. The lemmas in `Ledger` state what each
  query returns and what each write changes.
- **The request handlers** (`server.js`, module `Server`):
  - the `Authorization` header split;
  - the profile create, update and delete guards;
  - the batch save of a day's sales (`POST /api/sales`), one upsert per element in order;
  - the monthly target with its `|| 15000` fallback;
  - the dashboard statistics;
  - the CSV export, with a reader that shows the export can be read back.
- **The page's computations** (`public/app.js`, module `Client`):
  - `formatDate`;
  - the `salesByDate` aggregation behind the statistics cards (total, daily average, best day, best profile);
  - the line chart's labels and points;
  - the grouped sales history;
  - the payload of the sales form;
  - the progress bar and "remaining" arithmetic.

Helper modules:
- `Text`: code-point order on text. This is the order of SQLite's BINARY
  collation, which compares UTF-8 bytes. It also holds one-character `split`/`join`, `trim`,
  and the doubling of double quotes together with the reader that undoes it.
- `Seqs`: filter, sum and an insertion sort parameterised by an ordering. Its
  lemmas give permutation, sortedness, distinct keys and independence from
  the ordering's behaviour off the input.
- `Wrappers`: `Option`, `Result` and `Outcome`.

Values and parameters:
- Amounts are `real`.
- Dates are ISO `YYYY-MM-DD` strings compared as text, as SQLite's
  `BETWEEN` compares them.
- These are parameters of the operations that use them:
  - `CURRENT_TIMESTAMP`;
  - `parseFloat` (`string -> Option<real>`, where `None` is NaN);
  - `toString` and `toFixed(2)`;
  - the random colour;
  - the JWT check;
  - the calendar bounds of the current and previous month;
  - the page's form fields.

The schema's constraints are invariants of the store (`Store.DatabaseManager.Valid`):
- the primary keys of `profiles` and `daily_sales`;
- `UNIQUE(name)` and `UNIQUE(date, profile_id)`;
- the foreign key from `daily_sales.profile_id` to `profiles.id`, which
  better-sqlite3 enforces by default.

Under the foreign key, an upsert that names an unknown profile id fails and
changes nothing. A batch save answers 500 at that element. No write removes a
profile, since `deleteProfile` only clears `active`, so every sales row keeps
its profile. The listing queries would drop a sale without a profile, and
`getTotalSales` would count it, so the invariant is what makes the two agree
(`Ledger.TotalSalesMatchesListing`).

Behaviour of the code that the model keeps as written:
- A stored target that is 0 or does not parse is replaced by 15000 (`|| 15000`).
  There is no error.
- `getSalesByProfile` orders by total only, with no tie-break by name, so
  nothing is promised about the order of equal totals. With date bounds the
  date test sits in `WHERE` after the `LEFT JOIN`, so active profiles without a
  sale in range are left out rather than listed with 0.
- A duplicate profile name is reported as 400 (`UNIQUE` constraint failed), not
  as a distinct conflict status.
- The CSV export escapes only the notes. A date, profile name or amount text
  containing a double quote produces a line that does not read back.
  `Server.CsvRoundTrip` therefore requires those three to be free of double
  quotes.

## Model

| member | source | states |
|---|---|---|
| Store.DatabaseManager.constructor | database.js:7-73 | Opening the file keeps the stored tables (`CREATE TABLE IF NOT EXISTS`); a new file has empty ones. Then the profiles are seeded only when the table is empty, and the default target is written only when absent. The sales are kept as stored. All constraints, the foreign key included, hold. |
| Store.DatabaseManager.InitDefaultData | database.js:89-113 | The default profiles are inserted one by one, and only into an empty table. `monthly_meta = '15000'` is written only when the key is absent. Sales are untouched and the constraints, the foreign key included, are kept. |
| Store.DatabaseManager.CreateProfile | database.js:205-210 | A missing or empty colour becomes the generated one. A name already in use fails with a `UNIQUE` violation and changes nothing. Otherwise one active profile is appended under the next id, and that id is returned. |
| Store.DatabaseManager.UpdateProfile | database.js:212-214 | An unknown id changes nothing. A name held by another profile fails and changes nothing. Otherwise only that row's name and colour change. The constraints are kept. |
| Store.DatabaseManager.DeleteProfile | database.js:216-218 | A soft delete: only the `active` flag of that id's row is cleared. Sales and settings are untouched. |
| Store.DatabaseManager.CreateOrUpdateSale | database.js:241-260 | Without a profile id the insert fails (`NOT NULL`) and nothing changes. An id with no profile row fails the foreign key and nothing changes. Otherwise it updates the row with key `(date, profile)` when the lookup finds one and inserts otherwise. The constraints are kept. |
| Store.DatabaseManager.DeleteSale | database.js:262-264 | The sales table becomes the table without the row of that id. The constraints are kept. |
| Store.DatabaseManager.SetSetting | database.js:282-287 | Insert-or-replace of one key with the current time. The other tables are untouched. |
| Ledger.ProfileById | database.js:201-203 | The lookup returns a row with that id, or None exactly when no row has it. |
| Ledger.ProfileByIdUnique | database.js:39 | Under the primary key, the lookup returns the one row with that id. |
| Ledger.SaleByKey | database.js:241-243 | The lookup returns a row with that `(date, profile_id)`, or None exactly when no row has it. |
| Ledger.SaleByKeyUnique | database.js:59 | Under `UNIQUE(date, profile_id)`, the lookup returns the one row with that key. |
| Ledger.Joined | database.js:224-225 | The join yields rows whose sale is in the table and whose name and colour come from the sale's profile. It yields every sale whose profile exists. |
| Ledger.JoinedMembers | database.js:224-225 | A joined row is listed if and only if its sale is in the table and carries its profile's name and colour. |
| Ledger.JoinedDistinct | database.js:224-225 | The join lists no sale twice. |
| Ledger.DateThenNameTotalPreorder | database.js:236 | `ORDER BY ds.date, p.name` is a total preorder. |
| Ledger.SalesByDateRangeSpec | database.js:221-239 | getSalesByDateRange lists exactly the joined rows with `start <= date <= end`, restricted to the given profile when one is given. The result is sorted by date, then by name. |
| Ledger.SalesByDateRangeDistinct | database.js:221-239 | No sale appears twice in the range listing. |
| Ledger.SalesByDateSpec | database.js:266-274 | getSalesByDate lists exactly the joined rows of that date, sorted by profile name. |
| Ledger.SalesByDateIsOneDayRange | database.js:266-274 | getSalesByDate(d) equals the range query over `[d, d]` without a profile filter, row for row. |
| Ledger.Window | database.js:294-297 | The date test is applied exactly when both bounds are present and non-empty. |
| Ledger.TotalSalesNoMatch | database.js:290-301 | When no row passes the date test, the total is 0 rather than NULL. |
| Ledger.TotalSalesMatchesListing | database.js:290-301 | With both bounds, and under the foreign key, the total equals the sum of the amounts the range listing shows. |
| Ledger.Groups | database.js:303-321 | There is one `(id, name, colour, COALESCE(SUM, 0))` group per listed profile, in table order. |
| Ledger.GroupsMembers | database.js:303-321 | The groups are exactly the totals of the listed profiles. |
| Ledger.SalesByProfileSpec | database.js:303-321 | getSalesByProfile has a row exactly for each active profile, and with both bounds only for those with a sale in range. Each total is the sum of that profile's sales in range. The rows are ordered by total descending, with no promise among equal totals. |
| Ledger.SalesByProfileDistinct | database.js:303-321 | Each profile appears at most once in the ranking. |
| Ledger.AllProfilesSpec | database.js:194-199 | getAllProfiles lists every profile, or only the active ones when asked, each once, sorted by name. |
| Ledger.GetSetting | database.js:277-280 | The stored value of the key, or None exactly when the key is absent. |
| Ledger.UpsertedRow | database.js:245-260 | After the upsert there is exactly one row with the key, holding the new amount, notes and `updated_at`. An existing row keeps its id and `created_at`, and the table keeps its size. Otherwise a new row takes the next id and the table grows by one. The constraints hold. |
| Ledger.UpsertedExisting | database.js:248-253 | When the key has a row, that row takes the new amount, notes and `updated_at`, and the table keeps its size and next id. |
| Ledger.UpsertedNew | database.js:254-258 | When the key has no row, a row with the next id and both timestamps at now is added, and the next id moves on by one. |
| Ledger.OnlyRowOfKey | database.js:59 | Under `UNIQUE(date, profile_id)` a row is the only one with its key. |
| Ledger.UpsertedKeepsReferences | database.js:245-260 | An upsert naming an existing profile keeps the foreign key. |
| Ledger.ReferencedProfile | database.js:58 | Under the foreign key every sales row's profile exists. |
| Ledger.UpsertedValid | database.js:245-260 | The upsert keeps the primary key and `UNIQUE(date, profile_id)`. |
| Ledger.UpsertedOthers | database.js:245-260 | The table grows by at most one row. Rows with another key keep their place and value. |
| Ledger.UpsertedOtherKey | database.js:245-260 | The lookup of every other key returns what it returned before the upsert. |
| Ledger.WithoutSaleSpec | database.js:262-264 | Exactly the rows without that id remain. Deleting an absent id leaves the table unchanged. The constraints hold. |
| Ledger.WithoutSaleKeepsReferences | database.js:262-264 | Deleting a sale keeps the foreign key. |
| Ledger.ProfileByIdKept | database.js:205-218 | A write that keeps every profile's id in place keeps every id resolvable. |
| Ledger.ReferencesKept | database.js:205-218 | Such a write keeps the foreign key: no sale loses its profile. |
| Ledger.InsertProfileValid | database.js:205-210 | Inserting a free name keeps the constraints and adds an active profile under the next id. |
| Ledger.RenamedSpec | database.js:212-214 | A rename to a free name keeps the constraints and every other row. The renamed row keeps its id, active flag and creation time. |
| Ledger.RenamedValid | database.js:212-214 | A rename to a name no other profile holds keeps the constraints. |
| Ledger.DeactivatedSpec | database.js:216-218 | The soft delete keeps every row and changes only the `active` flag of the rows with that id. |
| Ledger.DeactivatedListings | database.js:194-199 | After the soft delete the profile is missing from `getAllProfiles(true)` but still in `getAllProfiles(false)`, inactive. |
| Ledger.ProfileByIdDeactivated | database.js:216-218 | The lookup after a soft delete returns the same row, with the flag cleared if it is the deleted one. |
| Ledger.DeactivationKeepsHistory | database.js:221-239 | A soft delete does not change any range listing: the sales stay listed with the same name and colour. |
| Ledger.PutSettingSpec | database.js:277-287 | After setSetting, getSetting returns the new value, and other keys are unchanged. |
| Ledger.SeedIfEmptySpec | database.js:95-109 | An empty profile table is seeded with exactly the two default profiles, active, under consecutive ids. A non-empty table is left alone. The constraints hold. |
| Ledger.SeedDefaults | database.js:95-106 | Seeding inserts the two default profiles one after the other. |
| Ledger.InitDefaultDataIdempotent | database.js:89-113 | Running the seeding a second time changes nothing. Afterwards the target is the stored one, or `'15000'` if there was none. |
| Server.BearerToken | server.js:28-30 | The token is the second space-separated word of a truthy header. It is non-empty and holds no space. |
| Server.AuthStatus | server.js:31-42 | 401 exactly when there is no token. 200 exactly when the verifier accepts it. 403 otherwise. |
| Server.BearerRoundTrip | server.js:28-42 | `Bearer <token>` yields the token back, so the outcome rests on the verifier alone. |
| Server.AcceptedName | server.js:152-156 | A name is accepted if and only if it has a character that is not white space. The stored name is the trimmed one: non-empty and already trimmed. |
| Server.CreateProfileRoute | server.js:148-167 | A blank name gives 400. A taken name gives 400 with nothing changed. Otherwise the profile is created under the trimmed name and returned. |
| Server.UpdateProfileRoute | server.js:170-194 | A blank name gives 400. An unknown id gives 404. A missing colour keeps the profile's own. A name held by another profile gives 400. Each failure changes nothing. |
| Server.DeleteProfileRoute | server.js:197-210 | An unknown id gives 404 and nothing changes. Otherwise the profile is soft-deleted. |
| Server.ListSales | server.js:215-229 | A missing date gives 400. Otherwise the response is the range listing. |
| Server.Coerced | server.js:257 | `parseFloat(amount) \|\| 0`: the parsed amount, or 0 when the amount is missing or does not parse. |
| Server.SharedNotes | server.js:258 | `notes \|\| null`: empty notes become NULL. |
| Server.FirstRejected | server.js:255-259 | The index of the first element without a profile id or whose id names no profile. Every element before it has an existing profile. |
| Server.SaveSales | server.js:243-266 | A missing date or a non-array gives 400 and no writes. Otherwise the elements before the first rejected one are upserted in order under the same date and notes. A rejected element gives 500, and the earlier writes stay. The constraints, the foreign key included, are kept. |
| Server.FirstRejectedAt | server.js:255-264 | The element the loop stops at is the first rejected one. |
| Server.UpsertAllValid | server.js:255-259 | A batch keeps the table's constraints. |
| Server.UpsertAllEffect | server.js:255-259 | After a batch, each named profile's row for that date holds the amount of its last element and the shared notes. Every other key's row is unchanged. |
| Server.UpsertAllOther | server.js:255-259 | A key the batch does not name keeps its row. |
| Server.UpsertAllLast | server.js:255-259 | A key the batch names holds its last element's amount and the shared notes. |
| Server.DeleteSaleRoute | server.js:269-277 | Always 200. Only the row with that id, if any, is removed. |
| Server.MonthlyMeta | server.js:293 | The stored target when it parses to a non-zero number, 15000 otherwise. Never 0. |
| Server.GetMeta | server.js:326-334 | The target the dashboard uses, never 0. |
| Server.SetMeta | server.js:337-351 | A missing, zero or negative target gives 400 and stores nothing. Otherwise its text is stored under `monthly_meta`. |
| Server.MetaRoundTrip | server.js:337-351 | An accepted target whose text parses back to itself is the one used afterwards. |
| Server.Percent | server.js:314 | `part / whole * 100`: `part` as a percentage of a non-zero `whole`. |
| Server.Dashboard | server.js:282-321 | The statistics are the total sales, the ranking, the target (never 0), and the totals of the current and previous month. The progress is the current month's total as a percentage of the target. |
| Server.BuildCsv | server.js:367-380 | The `csv +=` loop produces the BOM, the header, and one line per row in order. |
| Server.ExportCsv | server.js:356-385 | A missing date gives 400. Otherwise the body is the export of the range listing. |
| Server.CsvLinesSnoc | server.js:372-376 | One more row appends exactly its line. |
| Server.ReadFieldLast | server.js:373-375 | A last field with doubled quotes reads back as the original notes. |
| Server.ReadNested | server.js:375 | A line in the export's layout reads back as its four fields. |
| Server.CsvLineReadBack | server.js:371-375 | An exported line reads back as the row's date, profile name, amount text and notes, provided the first three hold no double quote. |
| Server.CsvRoundTrip | server.js:356-385 | Reading an export gives one record per listed row, in order, with that row's fields. |
| Server.RecordsRoundTrip | server.js:372-376 | The lines of the export read back as the rows' records. |
| Text.SplitJoin | public/app.js:925 | Splitting a join of separator-free parts gives the parts back. |
| Text.TrimSpec | server.js:152 | `trim` keeps an infix cut only at white space, which neither starts nor ends with white space. |
| Text.TrimEmptyIff | server.js:152 | A text is empty after trimming exactly when it is all white space. |
| Text.TrimIdempotent | server.js:156 | Trimming twice is trimming once. |
| Text.ReadDoubleQuotes | server.js:373 | Doubling the quotes of any text and closing the field lets the reader recover the text exactly. |
| Text.DoubleQuotesNoQuote | server.js:373 | Text without a double quote is unchanged by the escaping. |
| Seqs.SortBySorted | database.js:236 | The sort's result is ordered whenever the ordering is a total preorder. |
| Seqs.SortByAgree | database.js:266-274 | Two orderings that agree on the input sort it alike. |
| Seqs.SortByDistinctKeys | database.js:318 | Sorting keeps distinct keys distinct. |
| Seqs.SumSortBy | database.js:290-301 | Reordering rows does not change their sum. |
| Client.FormatDate | public/app.js:923-927 | The result is empty if and only if the argument is missing or empty. |
| Client.FormatIsoDate | public/app.js:923-927 | `YYYY-MM-DD` becomes `DD/MM/YYYY`. |
| Client.DistinctDatesSpec | public/app.js:585-596 | The distinct dates have no duplicates. A date is among them exactly when the listing has a sale on it. |
| Client.DayTotalsSumToTotal | public/app.js:585-596 | The day totals add up to the listing's total. |
| Client.AddAmount | public/app.js:590-593 | The callback adds the sale's amount to its date's entry, starting from 0 for a new date. |
| Client.TallyStep | public/app.js:588-594 | One more sale adds its amount to its date, and appends the date when it is new. |
| Client.TotalsByDate | public/app.js:585-594 | `totalFiltered` is the sum of the amounts. `salesByDate`'s keys are exactly the listing's dates, in order of first appearance, each mapped to that date's total. |
| Client.BestDay | public/app.js:599-605 | The best value is at least every day total and never negative. When positive, it is attained first at the date returned. It stays `('', 0)` when no total is positive. |
| Client.BestProfile | public/app.js:607-611 | The first profile of the ranking when no profile filter is set and the ranking is non-empty, otherwise null. |
| Client.BestProfileHasLargestTotal | public/app.js:607-611 | On the server's ranking, the best profile has the largest total. |
| Client.AverageDaily | public/app.js:596-597 | With at least one day, the days at the average add up to the total. With none, the average is 0. |
| Client.BestDayOfListing | public/app.js:585-605 | BestDay's facts about the dictionary hold of the listing's day totals. |
| Client.RenderStatsCards | public/app.js:570-611 | An empty listing shows nothing. Otherwise the cards hold the total (equal to the sum of the day totals), the mean per distinct date, and the best profile. The best day has the largest day total and is never negative. When positive, it is attained first at the date shown, in order of first appearance. Otherwise the best day is `('', 0)`. |
| Client.LineSeries | public/app.js:707-717 | The labels are exactly the dates with sales, strictly ascending. Each point is its date's total. |
| Client.ChartLabels | public/app.js:716 | The sorted distinct dates are ascending and are exactly the dates with sales. |
| Client.SortedDates | public/app.js:716 | Sorting distinct dates gives a strictly ascending sequence. |
| Client.GroupSale | public/app.js:386-397 | The callback opens a group for a new date with the sale's notes, then appends the sale and adds its amount. |
| Client.GroupStep | public/app.js:386-397 | One more sale keeps every group equal to its date's sales in order, their total, and the first sale's notes. |
| Client.GroupOfSnoc | public/app.js:395-396 | A later sale of the date is appended to the group and added to its total. The notes stay. |
| Client.FirstOfDate | public/app.js:387-394 | The first sale of a date opens its group with that sale's notes. |
| Client.GroupByDate | public/app.js:385-397 | The dictionary maps each date of the listing to its group, and records the dates in order of first appearance. |
| Client.ValuesReversed | public/app.js:413 | `Object.values(...).reverse()`: the groups in reverse key order. |
| Client.Reversed | public/app.js:413 | Reversing the key order gives the groups in reverse order of their dates' first appearance. |
| Client.HistoryGroups | public/app.js:385-413 | There is one group per distinct date, in reverse order of first appearance. Each group has that date's sales in listing order, their total, and the notes of its first sale. |
| Client.ListingInDateOrder | database.js:236 | The range listing the history loads is in date order. |
| Client.DistinctDatesAscending | public/app.js:385-397 | On a listing in date order the distinct dates ascend strictly. |
| Client.NewestFirst | public/app.js:364-413 | On a listing in date order, as the history loads it, the groups' dates descend strictly: newest first. |
| Client.BuildSalesRequest | public/app.js:328-343 | There is one `{profileId, amount}` per loaded profile, in profile order. The amount is the parsed input, or 0 when it does not parse. The notes are trimmed. |
| Client.AsServerInputs | public/app.js:336-343 | The payload as the server reads it, element for element. |
| Client.PayloadNamesEveryProfile | public/app.js:336-343 | Every element of the form's payload carries a profile id. When those ids are ids of profile rows, the server's batch rejects none of them. |
| Client.ProgressWidth | public/app.js:646-647 | `min(metaProgress, 100)`: at most 100 and at most the progress, and equal to one of them. |
| Client.Remaining | public/app.js:562 | `max(0, target - current)`: never negative, 0 exactly when the target is reached, and otherwise what is missing. |
| Client.MonthOverMonth | public/app.js:530-532 | 0 when the previous month sold nothing. Otherwise the change relative to the previous month in percent, non-negative exactly when sales did not drop. |
| Client.GoalReached | public/app.js:645-647 | With a positive target, the bar is full exactly when the current month reached the target, which is exactly when nothing remains. |

## Left out

- Users, login, password change, bcrypt hashing and JWT signing (database.js:27-34, 76-87, 183-191; server.js:48-117). These are cryptographic libraries. The JWT check is the parameter `verify` of `Server.AuthStatus`.
- The backup scheduler, `cleanOldBackups` and `POST /api/backup` (database.js:116-181). These are timers and file operations.
- Express routing, CORS, rate limiting, static files, `listen` and signal handling. A handler is a method that takes the decoded request fields and returns the status.
- `GET /api/profiles`, `GET /api/profiles/:id` and `GET /api/sales/date/:date` are plain calls of `getAllProfiles`, `getProfileById` and `getSalesByDate`. They are covered by `Ledger.AllProfiles`, `Ledger.ProfileById` and `Ledger.SalesByDate`, with no handler of their own.
- The 500 answers raised by a failing database connection, and the `close` method.
- The month bounds computed from `new Date()` and `toISOString` (server.js:296-304), and the page's filter ranges. These depend on the clock and the time zone, and are parameters.
- `parseFloat`, `Number.prototype.toString`, `toFixed` and `Intl.NumberFormat`. They are parameters. Amounts are exact reals, not IEEE doubles, so rounding in sums is not modelled.
- Client.MonthOverMonth: the page rounds the percentage with `toFixed(1)` before testing its sign. The model states the sign of the unrounded value, so a drop of less than 0.05% (shown with the upward arrow) is not captured.
- Server.SetMeta: the target is modelled as a number or absent. A JSON string or another non-numeric value for `meta` is not modelled, nor is its comparison with 0.
- Ids are integers. The route parameter arrives as text and SQLite converts it. The text-versus-integer comparison is not modelled.
- Transactions and concurrent connections. The code issues separate statements, so the writes of a batch before a failing element stay.
- The random colour of `createProfile` is the parameter `generated`.
- `PUT /api/profiles/:id` re-reads and returns the updated profile. The model returns only the status.
- The key order of a JavaScript object is taken to be insertion order. That holds for `YYYY-MM-DD` keys, which are not array-index-like. Integer-like keys, which JavaScript orders first, are not modelled.
- JavaScript's `sort` and SQLite's `ORDER BY` are modelled by one insertion sort. Only the properties proved about it are promised: the same rows, ordered, and the same result for orderings that agree on the rows. Among rows that compare equal, the order is that of the insertion sort, which neither engine guarantees.
- The DOM, Chart.js, `localStorage`, `fetch`, alerts and the module's global variables. The globals `profiles` and `monthlyMeta`, and the form fields, are parameters of the page's functions.
- JavaScript's `sort` compares UTF-16 code units, which differs from `Text.Less` only for characters outside the Basic Multilingual Plane. The page sorts only ISO date keys (public/app.js:716), where the two agree.
