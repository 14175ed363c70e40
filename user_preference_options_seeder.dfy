/**
 * The master rows behind the buyer preference screens: six fixed lists, each
 * written row by row with a query-builder upsert keyed by id, so a listed id
 * always ends up with exactly the listed columns.
 */
module UserPreferenceOptionsSeeder {
  import opened Wrappers
  import opened Schema
  import opened Catalog

  function BhkRows(): seq<(Id, BhkType)> {
    [ (1, BhkType("1 BHK", 1)), (2, BhkType("2 BHK", 2)), (3, BhkType("3 BHK", 3)), (4, BhkType("Villa / Plot", 4)) ]
  }

  function TimelineRows(): seq<(Id, MoveInTimeline)> {
    [ (1, MoveInTimeline("Immediately", 1)), (2, MoveInTimeline("3-6 months", 2)),
      (3, MoveInTimeline("6-12 months", 3)), (4, MoveInTimeline("Just exploring", 4)) ]
  }

  function NearbyRows(): seq<(Id, NearbyLocation)> {
    [ (1, NearbyLocation("Near work", Some("briefcase"))), (2, NearbyLocation("Near school", Some("school"))),
      (3, NearbyLocation("Near metro", Some("train"))), (4, NearbyLocation("Quiet area", Some("tree"))),
      (5, NearbyLocation("Investment hotspot", Some("trending-up"))) ]
  }

  function BudgetRows(): seq<(Id, BudgetRange)> {
    [ (1, BudgetRange("Under \U{20B9}50L", 0, 5000000, 1)),
      (2, BudgetRange("\U{20B9}50L - \U{20B9}1Cr", 5000000, 10000000, 2)),
      (3, BudgetRange("\U{20B9}1Cr - \U{20B9}2Cr", 10000000, 20000000, 3)),
      (4, BudgetRange("\U{20B9}2Cr+", 20000000, 9999999999, 4)) ]
  }

  function LocalityRows(): seq<(Id, Locality)> {
    [ (1, Locality("Indiranagar", "Bangalore")), (2, Locality("HSR Layout", "Bangalore")),
      (3, Locality("JP Nagar", "Bangalore")), (4, Locality("Whitefield", "Bangalore")),
      (5, Locality("Koramangala", "Bangalore")) ]
  }

  function PropertyTypeRows(): seq<(Id, PropertyType)> {
    [ (1, PropertyType("New Projects", "new-projects", true)), (2, PropertyType("Resale", "resale", true)),
      (3, PropertyType("Rentals", "rentals", true)) ]
  }

  /** No id is listed twice. */
  ghost predicate DistinctIds<T>(rows: seq<(Id, T)>) {
    forall i, j :: 0 <= i < j < |rows| ==> rows[i].0 != rows[j].0
  }

  /** Every listed row is in the table with exactly its listed columns. */
  ghost predicate HasRows<T>(m: map<Id, T>, rows: seq<(Id, T)>) {
    forall i :: 0 <= i < |rows| ==> rows[i].0 in m && m[rows[i].0] == rows[i].1
  }

  /** With distinct ids, every listed row is present as listed after the upsert, whatever was there before. */
  lemma UpsertedHasRows<T>(m: map<Id, T>, rows: seq<(Id, T)>)
    requires DistinctIds(rows)
    ensures HasRows(Upserted(m, rows), rows)
  {
    forall i | 0 <= i < |rows| ensures rows[i].0 in Upserted(m, rows) && Upserted(m, rows)[rows[i].0] == rows[i].1 {
      UpsertedRow(m, rows, i);
    }
  }

  /** A table that already holds the listed rows is left as it is by the upsert. */
  lemma {:induction false} UpsertedNoop<T>(m: map<Id, T>, rows: seq<(Id, T)>)
    requires HasRows(m, rows)
    ensures Upserted(m, rows) == m
  {
    if rows != [] {
      UpsertedNoop(m, rows[..|rows| - 1]);
      assert rows[|rows| - 1].0 in m && m[rows[|rows| - 1].0] == rows[|rows| - 1].1;
    }
  }

  /** The auto-increment counter after explicit ids were inserted: above every listed id and never lowered. */
  function NextAfter<T>(rows: seq<(Id, T)>, next: Id): (r: Id)
    ensures r >= next && forall i :: 0 <= i < |rows| ==> rows[i].0 < r
  {
    if rows == [] then next
    else
      var rest := NextAfter(rows[1..], next);
      assert forall i :: 1 <= i < |rows| ==> rows[i] == rows[1..][i - 1];
      if rows[0].0 < rest then rest else rows[0].0 + 1
  }

  /**
   * One `foreach ($rows as $row) DB::table(..)->upsert($row, ['id'], ..)` loop:
   * the rows are written in order, and the counter moves past the listed ids.
   */
  method UpsertEach<T>(m: map<Id, T>, rows: seq<(Id, T)>, next: Id) returns (r: map<Id, T>, next': Id)
    requires KeysBelow(m, next)
    ensures r == Upserted(m, rows)
    ensures next' == NextAfter(rows, next) && KeysBelow(r, next')
  {
    r := m;
    for i := 0 to |rows|
      invariant r == Upserted(m, rows[..i])
    {
      assert rows[..i + 1][..i] == rows[..i];
      r := r[rows[i].0 := rows[i].1];
    }
    assert rows[..|rows|] == rows;
    next' := NextAfter(rows, next);
    UpsertedFrame(m, rows);
  }

  lemma ListsHaveDistinctIds()
    ensures DistinctIds(BhkRows()) && DistinctIds(TimelineRows()) && DistinctIds(NearbyRows())
    ensures DistinctIds(BudgetRows()) && DistinctIds(LocalityRows()) && DistinctIds(PropertyTypeRows())
  {
  }

  /** The BHK types loop. */
  method SeedBhkTypes(db: Database)
    requires db.Valid()
    modifies db`bhkTypes, db`nextId
    ensures db.Valid()
    ensures db.bhkTypes == Upserted(old(db.bhkTypes), BhkRows())
  {
    db.bhkTypes, db.nextId := UpsertEach(db.bhkTypes, BhkRows(), db.nextId);
  }

  /** The move-in timelines loop. */
  method SeedTimelines(db: Database)
    requires db.Valid()
    modifies db`moveInTimelines, db`nextId
    ensures db.Valid()
    ensures db.moveInTimelines == Upserted(old(db.moveInTimelines), TimelineRows())
  {
    db.moveInTimelines, db.nextId := UpsertEach(db.moveInTimelines, TimelineRows(), db.nextId);
  }

  /** The nearby locations loop. */
  method SeedNearbyLocations(db: Database)
    requires db.Valid()
    modifies db`nearbyLocations, db`nextId
    ensures db.Valid()
    ensures db.nearbyLocations == Upserted(old(db.nearbyLocations), NearbyRows())
  {
    db.nearbyLocations, db.nextId := UpsertEach(db.nearbyLocations, NearbyRows(), db.nextId);
  }

  /** The budget ranges loop. */
  method SeedBudgets(db: Database)
    requires db.Valid()
    modifies db`budgetRanges, db`nextId
    ensures db.Valid()
    ensures db.budgetRanges == Upserted(old(db.budgetRanges), BudgetRows())
  {
    db.budgetRanges, db.nextId := UpsertEach(db.budgetRanges, BudgetRows(), db.nextId);
  }

  /** The localities loop. */
  method SeedLocalities(db: Database)
    requires db.Valid()
    modifies db`localities, db`nextId
    ensures db.Valid()
    ensures db.localities == Upserted(old(db.localities), LocalityRows())
  {
    db.localities, db.nextId := UpsertEach(db.localities, LocalityRows(), db.nextId);
  }

  /** The property types loop. */
  method SeedPropertyTypes(db: Database)
    requires db.Valid()
    modifies db`propertyTypes, db`nextId
    ensures db.Valid()
    ensures db.propertyTypes == Upserted(old(db.propertyTypes), PropertyTypeRows())
  {
    db.propertyTypes, db.nextId := UpsertEach(db.propertyTypes, PropertyTypeRows(), db.nextId);
  }

  /** The seeder's `run`: the six upsert loops, in order. */
  method Run(db: Database)
    requires db.Valid()
    modifies db`bhkTypes, db`moveInTimelines, db`nearbyLocations, db`budgetRanges, db`localities, db`propertyTypes
    modifies db`nextId
    ensures db.Valid()
    ensures db.bhkTypes == Upserted(old(db.bhkTypes), BhkRows())
    ensures db.moveInTimelines == Upserted(old(db.moveInTimelines), TimelineRows())
    ensures db.nearbyLocations == Upserted(old(db.nearbyLocations), NearbyRows())
    ensures db.budgetRanges == Upserted(old(db.budgetRanges), BudgetRows())
    ensures db.localities == Upserted(old(db.localities), LocalityRows())
    ensures db.propertyTypes == Upserted(old(db.propertyTypes), PropertyTypeRows())
  {
    SeedBhkTypes(db);
    SeedTimelines(db);
    SeedNearbyLocations(db);
    SeedBudgets(db);
    SeedLocalities(db);
    SeedPropertyTypes(db);
  }

  /** Budget ranges tile the price axis from 0: each maximum is the next minimum, in ascending sort order. */
  lemma BudgetsContiguous()
    ensures BudgetRows()[0].1.minPrice == 0
    ensures forall i :: 0 <= i < |BudgetRows()| - 1 ==>
      && BudgetRows()[i].1.maxPrice == BudgetRows()[i + 1].1.minPrice
      && BudgetRows()[i].1.sortOrder < BudgetRows()[i + 1].1.sortOrder
    ensures forall i :: 0 <= i < |BudgetRows()| ==> BudgetRows()[i].1.minPrice < BudgetRows()[i].1.maxPrice
  {
  }

  /** After `run`, every listed master row is present with exactly its listed columns, whatever the tables held. */
  lemma MastersAfterRun(bhk: map<Id, BhkType>, timelines: map<Id, MoveInTimeline>, nearby: map<Id, NearbyLocation>,
                        budgets: map<Id, BudgetRange>, localities: map<Id, Locality>, types: map<Id, PropertyType>)
    ensures HasRows(Upserted(bhk, BhkRows()), BhkRows())
    ensures HasRows(Upserted(timelines, TimelineRows()), TimelineRows())
    ensures HasRows(Upserted(nearby, NearbyRows()), NearbyRows())
    ensures HasRows(Upserted(budgets, BudgetRows()), BudgetRows())
    ensures HasRows(Upserted(localities, LocalityRows()), LocalityRows())
    ensures HasRows(Upserted(types, PropertyTypeRows()), PropertyTypeRows())
  {
    ListsHaveDistinctIds();
    UpsertedHasRows(bhk, BhkRows());
    UpsertedHasRows(timelines, TimelineRows());
    UpsertedHasRows(nearby, NearbyRows());
    UpsertedHasRows(budgets, BudgetRows());
    UpsertedHasRows(localities, LocalityRows());
    UpsertedHasRows(types, PropertyTypeRows());
  }
}
