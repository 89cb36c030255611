/** The schema migration runner, stopped at any statement and started again. */
module Migrations {
  import opened Wrappers

  datatype Driver = Sqlite | MySql

  /** The structures migrations need or make. */
  datatype Thing =
    | Biblios | Users | Patrons | Loans
    | OnlineUrl | UserRole | Notifications | NotifPatronIndex | PatronStatus | NotifRef | LoginLogs | LoginLogTimeIndex
    | NotifAutoId | LoginLogAutoId | Favorites | Ratings | PatronVip | FavPatronIndex | RateBiblioIndex
    | FavoriteAutoId | RatingAutoId | FavUnique | RateUnique | LoansDueIndex | LoansCheckoutIndex | LoansCheckinIndex

  /** `repeatable`: the statement succeeds without effect when its structure is already there. */
  datatype Migration = Migration(version: int, makes: Thing, needs: Thing, repeatable: bool, driver: Option<Driver>)

  const MIGRATIONS: seq<Migration> := [
    Migration(1, OnlineUrl, Biblios, false, None),
    Migration(2, UserRole, Users, false, None),
    Migration(3, Notifications, Users, true, None),
    Migration(4, NotifPatronIndex, Notifications, false, None),
    Migration(6, PatronStatus, Patrons, false, None),
    Migration(7, NotifRef, Notifications, false, None),
    Migration(8, LoginLogs, Users, true, None),
    Migration(9, LoginLogTimeIndex, LoginLogs, false, None),
    Migration(10, NotifAutoId, Notifications, true, Some(MySql)),
    Migration(11, LoginLogAutoId, LoginLogs, true, Some(MySql)),
    Migration(12, Favorites, Users, true, None),
    Migration(13, Ratings, Users, true, None),
    Migration(14, PatronVip, Patrons, false, None),
    Migration(15, FavPatronIndex, Favorites, false, None),
    Migration(16, RateBiblioIndex, Ratings, false, None),
    Migration(17, FavoriteAutoId, Favorites, true, Some(MySql)),
    Migration(18, RatingAutoId, Ratings, true, Some(MySql)),
    Migration(19, FavUnique, Favorites, false, None),
    Migration(20, RateUnique, Ratings, false, None),
    Migration(21, LoansDueIndex, Loans, false, None),
    Migration(22, LoansCheckoutIndex, Loans, false, None),
    Migration(23, LoansCheckinIndex, Loans, false, None)
  ]

  /** The tables that exist before any migration runs. */
  const BASE: set<Thing> := {Biblios, Users, Patrons, Loans}

  /** The table a unique index is over. */
  function UniqueOver(t: Thing): Option<Thing> {
    match t
    case FavUnique => Some(Favorites)
    case RateUnique => Some(Ratings)
    case _ => None
  }

  /**
   `schema` counts each structure; `recorded` holds the rows of schema_migrations; `executed` counts
   migration statements; `repeated` are the tables with two rows of the same patron and book.
   */
  datatype Db = Db(schema: multiset<Thing>, recorded: seq<int>, executed: nat, repeated: set<Thing>)

  /** A unique index cannot be made over a table with repeated rows. */
  predicate Refuses(db: Db, t: Thing) { UniqueOver(t).Some? && UniqueOver(t).value in db.repeated }

  datatype Exec = Applied | Duplicate | Failed

  function Execute(db: Db, m: Migration): (Exec, Db) {
    if m.needs !in db.schema || (m.makes !in db.schema && Refuses(db, m.makes)) then
      (Failed, db.(executed := db.executed + 1))
    else if m.makes !in db.schema
      then (Applied, db.(schema := db.schema + multiset{m.makes}, executed := db.executed + 1))
    else (if m.repeatable then Applied else Duplicate, db.(executed := db.executed + 1))
  }

  function Record(db: Db, version: int): Db {
    db.(recorded := db.recorded + [version])
  }

  predicate Applies(m: Migration, driver: Driver) { m.driver.None? || m.driver == Some(driver) }

  datatype Ending = Finished | Stopped | Broken

  /** The runner over a list of migrations, killed when `budget` statements have been executed. */
  function RunFrom(ms: seq<Migration>, driver: Driver, db: Db, budget: nat): (Ending, Db) {
    if ms == [] then (Finished, db)
    else
      var m := ms[0];
      if !Applies(m, driver) || m.version in db.recorded then RunFrom(ms[1..], driver, db, budget)
      else if budget == 0 then (Stopped, db)
      else
        var (r, db1) := Execute(db, m);
        if r == Failed then (Broken, db1)
        else if budget == 1 then (Stopped, db1)
        else RunFrom(ms[1..], driver, Record(db1, m.version), budget - 2)
  }

  /** `runMigrations`, as a loop. */
  method RunMigrations(ms: seq<Migration>, driver: Driver, start: Db, limit: nat) returns (ending: Ending, db: Db)
    ensures (ending, db) == RunFrom(ms, driver, start, limit)
  {
    db := start;
    var budget := limit;
    for i := 0 to |ms|
      invariant RunFrom(ms, driver, start, limit) == RunFrom(ms[i..], driver, db, budget)
    {
      var m := ms[i];
      assert ms[i..][0] == m && ms[i..][1..] == ms[i + 1..];
      if !Applies(m, driver) { continue; }
      if m.version in db.recorded { continue; }
      if budget == 0 { return Stopped, db; }
      var (r, after) := Execute(db, m);
      db := after;
      if r == Failed { return Broken, db; }
      if budget == 1 { return Stopped, db; }
      db := Record(db, m.version);
      budget := budget - 2;
    }
    return Finished, db;
  }

  /** Runs that each stop where their budget says. */
  function RunAll(ms: seq<Migration>, driver: Driver, db: Db, budgets: seq<nat>): Db {
    if budgets == [] then db
    else RunFrom(ms, driver, RunAll(ms, driver, db, budgets[..|budgets| - 1]), budgets[|budgets| - 1]).1
  }

  // ---- What makes a list of migrations sound ----

  predicate VersionsIncrease(ms: seq<Migration>) {
    forall i, j :: 0 <= i < j < |ms| ==> ms[i].version < ms[j].version
  }

  predicate MadeBefore(ms: seq<Migration>, driver: Driver, i: int, thing: Thing) {
    exists j :: 0 <= j < i && j < |ms| && Applies(ms[j], driver) && ms[j].makes == thing
  }

  /** What a migration needs is a base table or made by an earlier migration of the same driver. */
  ghost predicate Ordered(ms: seq<Migration>, driver: Driver) {
    forall i :: 0 <= i < |ms| && Applies(ms[i], driver)
      ==> ms[i].needs in BASE || MadeBefore(ms, driver, i, ms[i].needs)
  }

  // ---- What every run keeps ----

  predicate IsVersion(ms: seq<Migration>, driver: Driver, v: int) {
    exists i :: 0 <= i < |ms| && Applies(ms[i], driver) && ms[i].version == v
  }

  /**
   Base tables are there, nothing is there twice, no unique index is over repeated rows, and only
   versions that apply, each at most once and with its structure in place, are recorded.
   */
  ghost predicate Consistent(ms: seq<Migration>, driver: Driver, db: Db) {
    && (forall t :: t in BASE ==> t in db.schema)
    && (forall t :: db.schema[t] <= 1)
    && (forall t :: Refuses(db, t) ==> t !in db.schema)
    && (forall v :: v in db.recorded ==> IsVersion(ms, driver, v))
    && (forall a, b :: 0 <= a < b < |db.recorded| ==> db.recorded[a] != db.recorded[b])
    && (forall i :: 0 <= i < |ms| && ms[i].version in db.recorded ==> ms[i].makes in db.schema)
  }

  /** Migrations before `i` that apply are recorded. */
  ghost predicate DoneBefore(ms: seq<Migration>, driver: Driver, db: Db, i: int) {
    forall j :: 0 <= j < i && j < |ms| && Applies(ms[j], driver) ==> ms[j].version in db.recorded
  }

  lemma ExecuteKeeps(ms: seq<Migration>, driver: Driver, db: Db, m: Migration)
    requires Consistent(ms, driver, db)
    ensures Consistent(ms, driver, Execute(db, m).1)
    ensures Execute(db, m).1.recorded == db.recorded && Execute(db, m).1.repeated == db.repeated
    ensures forall t :: t in db.schema ==> t in Execute(db, m).1.schema
    ensures Execute(db, m).0 != Failed ==> m.makes in Execute(db, m).1.schema
  {
  }

  lemma RecordKeeps(ms: seq<Migration>, driver: Driver, db: Db, i: int)
    requires Consistent(ms, driver, db) && VersionsIncrease(ms) && 0 <= i < |ms| && Applies(ms[i], driver)
    requires ms[i].version !in db.recorded && ms[i].makes in db.schema
    ensures Consistent(ms, driver, Record(db, ms[i].version))
  {
    var after := Record(db, ms[i].version);
    assert IsVersion(ms, driver, ms[i].version);
    forall j | 0 <= j < |ms| && ms[j].version in after.recorded ensures ms[j].makes in after.schema {
      if ms[j].version == ms[i].version { assert j == i; }
    }
  }

  /** A run from migration `i` on, interrupted or not, keeps the tables consistent and forgets no record. */
  lemma {:induction false} RunKeeps(ms: seq<Migration>, driver: Driver, db: Db, i: int, budget: nat)
    requires Consistent(ms, driver, db) && VersionsIncrease(ms) && 0 <= i <= |ms|
    ensures Consistent(ms, driver, RunFrom(ms[i..], driver, db, budget).1)
    ensures RunFrom(ms[i..], driver, db, budget).1.repeated == db.repeated
    decreases |ms| - i
  {
    hide Consistent, Execute;
    if i < |ms| {
      var m := ms[i];
      assert ms[i..][0] == m && ms[i..][1..] == ms[i + 1..];
      if !Applies(m, driver) || m.version in db.recorded {
        RunKeeps(ms, driver, db, i + 1, budget);
      } else if budget > 0 {
        ExecuteKeeps(ms, driver, db, m);
        var (r, db1) := Execute(db, m);
        if r != Failed && budget > 1 {
          RecordKeeps(ms, driver, db1, i);
          RunKeeps(ms, driver, Record(db1, m.version), i + 1, budget - 2);
        }
      }
    }
  }

  lemma {:induction false} RunAllKeeps(ms: seq<Migration>, driver: Driver, db: Db, budgets: seq<nat>)
    requires Consistent(ms, driver, db) && VersionsIncrease(ms)
    ensures Consistent(ms, driver, RunAll(ms, driver, db, budgets))
    ensures RunAll(ms, driver, db, budgets).repeated == db.repeated
  {
    hide Consistent, RunFrom;
    if budgets != [] {
      RunAllKeeps(ms, driver, db, budgets[..|budgets| - 1]);
      assert ms[0..] == ms;
      RunKeeps(ms, driver, RunAll(ms, driver, db, budgets[..|budgets| - 1]), 0, budgets[|budgets| - 1]);
    }
  }

  lemma NeedsAreThere(ms: seq<Migration>, driver: Driver, db: Db, i: int)
    requires Consistent(ms, driver, db) && Ordered(ms, driver) && DoneBefore(ms, driver, db, i)
    requires 0 <= i < |ms| && Applies(ms[i], driver)
    ensures ms[i].needs in db.schema
  {
    if ms[i].needs !in BASE {
      assert MadeBefore(ms, driver, i, ms[i].needs);
      var j :| 0 <= j < i && j < |ms| && Applies(ms[j], driver) && ms[j].makes == ms[i].needs;
    }
  }

  /** No migration that applies makes a unique index over repeated rows. */
  ghost predicate Possible(ms: seq<Migration>, driver: Driver, db: Db) {
    forall i :: 0 <= i < |ms| && Applies(ms[i], driver) ==> !Refuses(db, ms[i].makes)
  }

  /**
   With enough budget and no unique index over repeated rows a run finishes, and then everything
   that applies is recorded.
   */
  lemma {:induction false} CompleteRun(ms: seq<Migration>, driver: Driver, db: Db, i: int, budget: nat)
    requires Consistent(ms, driver, db) && VersionsIncrease(ms) && Ordered(ms, driver) && 0 <= i <= |ms|
    requires DoneBefore(ms, driver, db, i) && budget >= 2 * (|ms| - i) && Possible(ms, driver, db)
    ensures var (ending, after) := RunFrom(ms[i..], driver, db, budget);
            ending == Finished && Consistent(ms, driver, after) && DoneBefore(ms, driver, after, |ms|)
    decreases |ms| - i
  {
    hide Consistent, Execute;
    if i < |ms| {
      var m := ms[i];
      assert ms[i..][0] == m && ms[i..][1..] == ms[i + 1..];
      if !Applies(m, driver) || m.version in db.recorded {
        CompleteRun(ms, driver, db, i + 1, budget);
      } else {
        NeedsAreThere(ms, driver, db, i);
        NoFailure(db, m);
        ExecuteKeeps(ms, driver, db, m);
        var db1 := Execute(db, m).1;
        RecordKeeps(ms, driver, db1, i);
        CompleteRun(ms, driver, Record(db1, m.version), i + 1, budget - 2);
      }
    }
  }

  lemma NoFailure(db: Db, m: Migration)
    requires m.needs in db.schema && !Refuses(db, m.makes)
    ensures Execute(db, m).0 != Failed
  {
  }

  lemma {:induction false} NothingToDo(ms: seq<Migration>, driver: Driver, db: Db, i: int, budget: nat)
    requires DoneBefore(ms, driver, db, |ms|) && 0 <= i <= |ms|
    ensures RunFrom(ms[i..], driver, db, budget) == (Finished, db)
    decreases |ms| - i
  {
    if i < |ms| {
      assert ms[i..][0] == ms[i] && ms[i..][1..] == ms[i + 1..];
      NothingToDo(ms, driver, db, i + 1, budget);
    }
  }

  lemma Refused(ms: seq<Migration>, driver: Driver, db: Db, m: Migration)
    requires Consistent(ms, driver, db) && Refuses(db, m.makes)
    ensures Execute(db, m).0 == Failed
  {
  }

  lemma RefusedIsNotRecorded(ms: seq<Migration>, driver: Driver, db: Db, k: int)
    requires Consistent(ms, driver, db) && 0 <= k < |ms| && Refuses(db, ms[k].makes)
    ensures ms[k].version !in db.recorded
  {
  }

  /** A run that comes to a unique index over repeated rows does not finish; with enough budget it fails. */
  lemma {:induction false} RefusedRun(ms: seq<Migration>, driver: Driver, db: Db, i: int, k: int, budget: nat)
    requires Consistent(ms, driver, db) && VersionsIncrease(ms) && 0 <= i <= k < |ms|
    requires Applies(ms[k], driver) && Refuses(db, ms[k].makes)
    ensures RunFrom(ms[i..], driver, db, budget).0 != Finished
    ensures budget >= 2 * (|ms| - i) ==> RunFrom(ms[i..], driver, db, budget).0 == Broken
    decreases |ms| - i
  {
    hide Consistent, Execute, Refuses, VersionsIncrease;
    var m := ms[i];
    assert ms[i..][0] == m && ms[i..][1..] == ms[i + 1..];
    RefusedIsNotRecorded(ms, driver, db, k);
    if !Applies(m, driver) || m.version in db.recorded {
      RefusedRun(ms, driver, db, i + 1, k, budget);
    } else if budget > 0 {
      ExecuteKeeps(ms, driver, db, m);
      var (r, db1) := Execute(db, m);
      SameRefusals(db, db1);
      if i == k {
        Refused(ms, driver, db, m);
      } else if r != Failed && budget > 1 {
        RecordKeeps(ms, driver, db1, i);
        SameRefusals(db, Record(db1, m.version));
        RefusedRun(ms, driver, Record(db1, m.version), i + 1, k, budget - 2);
      }
    }
  }

  lemma SameRefusals(a: Db, b: Db)
    requires a.repeated == b.repeated
    ensures forall t :: Refuses(a, t) <==> Refuses(b, t)
  {
  }

  /**
   After this database every applicable structure is present once and exactly the applicable
   versions are recorded, each once.
   */
  ghost predicate Converged(ms: seq<Migration>, driver: Driver, db: Db) {
    && (forall i :: 0 <= i < |ms| && Applies(ms[i], driver) ==> db.schema[ms[i].makes] == 1)
    && (forall v :: v in db.recorded <==> IsVersion(ms, driver, v))
    && (forall a, b :: 0 <= a < b < |db.recorded| ==> db.recorded[a] != db.recorded[b])
  }

  lemma AllDoneIsConverged(ms: seq<Migration>, driver: Driver, db: Db)
    requires Consistent(ms, driver, db) && DoneBefore(ms, driver, db, |ms|)
    ensures Converged(ms, driver, db)
  {
    forall i | 0 <= i < |ms| && Applies(ms[i], driver) ensures db.schema[ms[i].makes] == 1 {
      assert ms[i].version in db.recorded;
    }
  }

  /**
   Crash convergence: from any consistent database and after any number of runs each stopped at
   any statement, also between a change and its record, the next complete run finishes if and only
   if no applicable unique index is over repeated rows. If it finishes, the database has converged
   and a further run executes no migration statement; if not, no run ever finishes.
   */
  lemma CrashesConverge(ms: seq<Migration>, driver: Driver, db: Db, crashes: seq<nat>, budget: nat, again: nat)
    requires VersionsIncrease(ms) && Ordered(ms, driver) && Consistent(ms, driver, db) && budget >= 2 * |ms|
    ensures var (ending, after) := RunFrom(ms, driver, RunAll(ms, driver, db, crashes), budget);
            && (ending == Finished <==> Possible(ms, driver, db))
            && (ending == Finished ==> Converged(ms, driver, after))
            && (ending == Finished ==> RunFrom(ms, driver, after, again) == (Finished, after))
            && (ending != Finished ==> ending == Broken && RunFrom(ms, driver, after, again).0 != Finished)
  {
    hide RunFrom, RunAll, Consistent, Refuses, Converged;
    RunAllKeeps(ms, driver, db, crashes);
    assert ms[0..] == ms;
    var before := RunAll(ms, driver, db, crashes);
    var after := RunFrom(ms, driver, before, budget).1;
    RunKeeps(ms, driver, before, 0, budget);
    SameRefusals(db, before);
    SameRefusals(db, after);
    if Possible(ms, driver, db) {
      CompleteRun(ms, driver, before, 0, budget);
      AllDoneIsConverged(ms, driver, after);
      NothingToDo(ms, driver, after, 0, again);
    } else {
      var k :| 0 <= k < |ms| && Applies(ms[k], driver) && Refuses(db, ms[k].makes);
      RefusedRun(ms, driver, before, 0, k, budget);
      RefusedRun(ms, driver, after, 0, k, again);
    }
  }

  /** Any schema with the base tables, whose unique indexes hold, and no records is a place to start from. */
  ghost predicate StartSchema(schema: multiset<Thing>, repeated: set<Thing>) {
    && (forall t :: t in BASE ==> t in schema) && (forall t :: schema[t] <= 1)
    && (forall t :: UniqueOver(t).Some? && UniqueOver(t).value in repeated ==> t !in schema)
  }

  lemma FreshIsConsistent(ms: seq<Migration>, driver: Driver, schema: multiset<Thing>, repeated: set<Thing>)
    requires StartSchema(schema, repeated)
    ensures Consistent(ms, driver, Db(schema, [], 0, repeated))
  {
  }

  /** The four tables made by migrations are made, on every driver, before anything needs them. */
  ghost predicate TablesComeFirst(ms: seq<Migration>) {
    && |ms| > 11
    && ms[2] == Migration(3, Notifications, Users, true, None) && ms[6] == Migration(8, LoginLogs, Users, true, None)
    && ms[10] == Migration(12, Favorites, Users, true, None) && ms[11] == Migration(13, Ratings, Users, true, None)
    && forall i :: 0 <= i < |ms| ==>
         match ms[i].needs
         case Notifications => i > 2
         case LoginLogs => i > 6
         case Favorites => i > 10
         case Ratings => i > 11
         case t => t in BASE
  }

  lemma TablesFirstIsOrdered(ms: seq<Migration>, driver: Driver)
    requires TablesComeFirst(ms)
    ensures Ordered(ms, driver)
  {
    MadeAt(ms, driver, 2, Notifications);
    MadeAt(ms, driver, 6, LoginLogs);
    MadeAt(ms, driver, 10, Favorites);
    MadeAt(ms, driver, 11, Ratings);
    hide MadeBefore;
  }

  lemma MadeAt(ms: seq<Migration>, driver: Driver, j: int, thing: Thing)
    requires 0 <= j < |ms| && Applies(ms[j], driver) && ms[j].makes == thing
    ensures forall i :: i > j ==> MadeBefore(ms, driver, i, thing)
  {
  }

  lemma ListHasTablesFirst()
    ensures TablesComeFirst(MIGRATIONS)
  {
  }

  /** The shipped list makes the two unique indexes on either driver. */
  lemma ListIsPossibleIff(driver: Driver, db: Db)
    ensures Possible(MIGRATIONS, driver, db) <==> Favorites !in db.repeated && Ratings !in db.repeated
  {
    var ms := MIGRATIONS;
    assert ms[17] == Migration(19, FavUnique, Favorites, false, None);
    assert ms[18] == Migration(20, RateUnique, Ratings, false, None);
    assert Refuses(db, FavUnique) <==> Favorites in db.repeated;
    assert Refuses(db, RateUnique) <==> Ratings in db.repeated;
    OnlyTwoRefusals(db);
  }

  lemma OnlyTwoRefusals(db: Db)
    ensures forall t :: Refuses(db, t) ==> Favorites in db.repeated || Ratings in db.repeated
  {
  }

  /**
   The shipped list, on either driver and from any schema with the base tables: after any crashes
   the next complete run finishes, and has converged, exactly when neither favourites nor ratings
   hold repeated rows; otherwise it fails, and so does every later one.
   */
  lemma ShippedMigrationsConverge(driver: Driver, schema: multiset<Thing>, repeated: set<Thing>, crashes: seq<nat>,
      again: nat)
    requires StartSchema(schema, repeated)
    ensures var ms := MIGRATIONS;
            var (ending, after) := RunFrom(ms, driver,
              RunAll(ms, driver, Db(schema, [], 0, repeated), crashes), 2 * |ms|);
            && (ending == Finished <==> Favorites !in repeated && Ratings !in repeated)
            && (ending == Finished ==> Converged(ms, driver, after))
            && (ending == Finished ==> RunFrom(ms, driver, after, again) == (Finished, after))
            && (ending != Finished ==> ending == Broken && RunFrom(ms, driver, after, again).0 != Finished)
  {
    hide RunFrom, RunAll, Ordered, IsVersion, Applies, TablesComeFirst, StartSchema, Converged, Possible;
    FreshIsConsistent(MIGRATIONS, driver, schema, repeated);
    ListHasTablesFirst();
    TablesFirstIsOrdered(MIGRATIONS, driver);
    ListIncreases();
    ListIsPossibleIff(driver, Db(schema, [], 0, repeated));
    CrashesConverge(MIGRATIONS, driver, Db(schema, [], 0, repeated), crashes, 2 * |MIGRATIONS|, again);
  }

  /** A reader's book saved twice before the index was made: the first start fails, and the next one too. */
  lemma RepeatedFavouriteStopsEveryStart(driver: Driver, again: nat)
    ensures var db := Db(multiset(BASE) + multiset{Favorites}, [], 0, {Favorites});
            var (ending, after) := RunFrom(MIGRATIONS, driver, db, 2 * |MIGRATIONS|);
            ending == Broken && RunFrom(MIGRATIONS, driver, after, again).0 != Finished
  {
    hide RunFrom, Converged;
    var schema := multiset(BASE) + multiset{Favorites};
    ShippedMigrationsConverge(driver, schema, {Favorites}, [], again);
    assert RunAll(MIGRATIONS, driver, Db(schema, [], 0, {Favorites}), []) == Db(schema, [], 0, {Favorites});
  }

  lemma ListIncreases()
    ensures VersionsIncrease(MIGRATIONS)
  {
  }
}
