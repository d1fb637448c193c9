/** `DatabaseManager`: the open database connection, holding the three
    tables the dashboard uses. Each write method changes the tables in
    place exactly as its SQL statement does; the effect is stated through
    the transition functions of `Ledger`, whose lemmas carry the
    properties. The read queries are the functions of `Ledger` applied to
    the fields. */
module Store {
  import opened Wrappers
  import opened Ledger

  class DatabaseManager {
    var profiles: ProfileTable
    var sales: SalesTable
    var settings: Settings

    /** The schema's `PRIMARY KEY`, `UNIQUE` and `FOREIGN KEY`
        constraints. */
    ghost predicate Valid()
      reads this
    {
      ProfilesValid(profiles) && SalesValid(sales) && SalesReferToProfiles(profiles.rows, sales.rows)
    }

    /** The contents of the three tables. */
    function State(): (ProfileTable, SalesTable, Settings)
      reads this
    {
      (profiles, sales, settings)
    }

    /** Opens the database file whose tables hold `stored`
        (`CREATE TABLE IF NOT EXISTS` keeps existing tables; a new file
        has empty ones, `ProfileTable([], 1)`, `SalesTable([], 1)` and
        `map[]`), then seeds what is missing. */
    constructor(storedProfiles: ProfileTable, storedSales: SalesTable, storedSettings: Settings, now: Timestamp)
      requires ProfilesValid(storedProfiles) && SalesValid(storedSales)
      requires SalesReferToProfiles(storedProfiles.rows, storedSales.rows)
      ensures Valid()
      ensures profiles == SeedIfEmpty(storedProfiles, now)
      ensures sales == storedSales
      ensures settings == WithDefaultMeta(storedSettings, now)
    {
      profiles := storedProfiles;
      sales := storedSales;
      settings := storedSettings;
      new;
      InitDefaultData(now);
    }

    /** Seeds the default profiles into an empty profile table and the
        default monthly target into settings when it is absent. */
    method InitDefaultData(now: Timestamp)
      requires Valid()
      modifies this
      ensures Valid()
      ensures profiles == SeedIfEmpty(old(profiles), now)
      ensures settings == WithDefaultMeta(old(settings), now)
      ensures sales == old(sales)
    {
      SeedIfEmptySpec(profiles, now);
      if |profiles.rows| == 0 {
        ghost var t0 := profiles;
        for i := 0 to |DefaultProfiles|
          invariant profiles == SeedProfiles(t0, DefaultProfiles[..i], now)
          invariant sales == old(sales) && settings == old(settings)
        {
          var (name, color) := DefaultProfiles[i];
          assert DefaultProfiles[..i + 1][..i] == DefaultProfiles[..i];
          profiles := InsertProfile(profiles, name, color, now);
        }
        assert DefaultProfiles[..|DefaultProfiles|] == DefaultProfiles;
      }
      ReferencesKept(old(profiles).rows, profiles.rows, sales.rows);
      var meta := GetSetting(settings, MetaKey);
      if meta.None? {
        settings := settings[MetaKey := SettingRow(DefaultMeta, now)];
      }
    }

    /** createProfile: a missing or empty colour is replaced by `generated`
        (the random colour); the insert fails on a duplicate name and then
        changes nothing. Returns the new row's id. */
    method CreateProfile(name: string, color: Option<string>, generated: string, now: Timestamp) returns (r: Result<int, DbError>)
      requires Valid()
      modifies this
      ensures Valid()
      ensures sales == old(sales) && settings == old(settings)
      ensures r.Success? <==> !NameTaken(old(profiles.rows), name, None)
      ensures r.Success? ==> r.value == old(profiles.nextId)
      ensures r.Success? ==> profiles == InsertProfile(old(profiles), name, if Truthy(color) then color.value else generated, now)
      ensures r.Failure? ==> r.error == UniqueViolation && profiles == old(profiles)
    {
      var c := if Truthy(color) then color.value else generated;
      if NameTaken(profiles.rows, name, None) {
        r := Failure(UniqueViolation);
      } else {
        InsertProfileValid(profiles, name, c, now);
        ReferencesKept(profiles.rows, InsertProfile(profiles, name, c, now).rows, sales.rows);
        r := Success(profiles.nextId);
        profiles := InsertProfile(profiles, name, c, now);
      }
    }

    /** updateProfile: renames and recolours the row with that id. An id
        with no row matches nothing and changes nothing; a name held by
        another profile fails the `UNIQUE` constraint and changes nothing. */
    method UpdateProfile(id: int, name: string, color: string) returns (r: Outcome<DbError>)
      requires Valid()
      modifies this
      ensures Valid()
      ensures sales == old(sales) && settings == old(settings)
      ensures ProfileById(old(profiles.rows), id).None? ==> r == Pass && profiles == old(profiles)
      ensures ProfileById(old(profiles.rows), id).Some? && NameTaken(old(profiles.rows), name, Some(id)) ==>
        r == Fail(UniqueViolation) && profiles == old(profiles)
      ensures ProfileById(old(profiles.rows), id).Some? && !NameTaken(old(profiles.rows), name, Some(id)) ==>
        r == Pass && profiles == old(profiles).(rows := Renamed(old(profiles.rows), id, name, color))
    {
      if ProfileById(profiles.rows, id).None? {
        r := Pass;
      } else if NameTaken(profiles.rows, name, Some(id)) {
        r := Fail(UniqueViolation);
      } else {
        RenamedSpec(profiles, id, name, color);
        ReferencesKept(profiles.rows, Renamed(profiles.rows, id, name, color), sales.rows);
        profiles := profiles.(rows := Renamed(profiles.rows, id, name, color));
        r := Pass;
      }
    }

    /** deleteProfile: a soft delete that clears the `active` flag. */
    method DeleteProfile(id: int)
      requires Valid()
      modifies this
      ensures Valid()
      ensures profiles == old(profiles).(rows := Deactivated(old(profiles.rows), id))
      ensures sales == old(sales) && settings == old(settings)
    {
      DeactivatedSpec(profiles, id);
      ReferencesKept(profiles.rows, Deactivated(profiles.rows, id), sales.rows);
      profiles := profiles.(rows := Deactivated(profiles.rows, id));
    }

    /** createOrUpdateSale: looks the key up, then updates that row or
        inserts a new one. A missing profile id binds NULL: the lookup
        finds nothing and the insert violates `profile_id NOT NULL`. An id
        with no profile row finds nothing either (under the foreign key no
        sale names it) and the insert violates the foreign key. A failed
        statement changes nothing. */
    method CreateOrUpdateSale(date: Date, profileId: Option<int>, amount: real, notes: Option<string>, now: Timestamp)
      returns (r: Outcome<DbError>)
      requires Valid()
      modifies this
      ensures Valid()
      ensures profiles == old(profiles) && settings == old(settings)
      ensures profileId.None? ==> r == Fail(NotNullViolation) && sales == old(sales)
      ensures profileId.Some? && ProfileById(old(profiles.rows), profileId.value).None? ==>
        r == Fail(ForeignKeyViolation) && sales == old(sales)
      ensures profileId.Some? && ProfileById(old(profiles.rows), profileId.value).Some? ==>
        r == Pass && sales == Upserted(old(sales), date, profileId.value, amount, notes, now)
    {
      if profileId.None? {
        r := Fail(NotNullViolation);
        return;
      }
      var pid := profileId.value;
      var existing := SaleByKey(sales.rows, date, pid);
      if existing.Some? {
        ReferencedProfile(profiles.rows, sales.rows, existing.value);
        UpsertedValid(sales, date, pid, amount, notes, now);
        UpsertedKeepsReferences(profiles.rows, sales, date, pid, amount, notes, now);
        sales := sales.(rows := UpdateByKey(sales.rows, date, pid, amount, notes, now));
      } else if ProfileById(profiles.rows, pid).None? {
        r := Fail(ForeignKeyViolation);
        return;
      } else {
        UpsertedValid(sales, date, pid, amount, notes, now);
        UpsertedKeepsReferences(profiles.rows, sales, date, pid, amount, notes, now);
        sales := InsertSale(sales, date, pid, amount, notes, now);
      }
      r := Pass;
    }

    /** deleteSale: removes the row with that id, if there is one. */
    method DeleteSale(id: int)
      requires Valid()
      modifies this
      ensures Valid()
      ensures sales == WithoutSale(old(sales), id)
      ensures profiles == old(profiles) && settings == old(settings)
    {
      WithoutSaleSpec(sales, id);
      WithoutSaleKeepsReferences(profiles.rows, sales, id);
      sales := WithoutSale(sales, id);
    }

    /** setSetting: insert-or-replace of one key. */
    method SetSetting(key: string, value: string, now: Timestamp)
      requires Valid()
      modifies this
      ensures Valid()
      ensures settings == PutSetting(old(settings), key, value, now)
      ensures profiles == old(profiles) && sales == old(sales)
    {
      settings := PutSetting(settings, key, value, now);
    }
  }
}
