/**
 * The top-level seeder: roles, then the tagging seeder, then the option
 * catalogue. Because tagging runs first, an option it creates from a raw
 * property value keeps the label it was given there, even when the catalogue
 * later lists the same value under another label.
 */
module DatabaseSeeder {
  import opened Schema
  import PropertyFilterSeeder
  import FilterOptionSeeder

  /**
   * `DatabaseSeeder::run` after the roles step. An exception in the tagging
   * seeder (a floor number without an ordinal) ends the run before the
   * catalogue is seeded; `ok` says whether the run got through.
   * `tagged` is the option table as the tagging seeder left it.
   */
  method Run(db: Database) returns (ok: bool, ghost tagged: map<Id, FilterOption>)
    requires db.Valid()
    modifies db`filters, db`filterOptions, db`propertyOptions, db`nextId
    ensures db.Valid()
    ensures Extends(old(db.filters), db.filters) && Extends(old(db.filterOptions), tagged)
    ensures Extends(tagged, db.filterOptions) && old(db.propertyOptions) <= db.propertyOptions
    ensures ok <==> forall c: PropertyFilterSeeder.Column :: PropertyFilterSeeder.Labelled(db.properties, PropertyFilterSeeder.EntryFn(c))
    ensures ok ==> PropertyFilterSeeder.FullyTagged(db.filters, db.filterOptions, db.propertyOptions, db.properties)
    ensures ok ==> FilterOptionSeeder.CatalogueSeeded(db.filters, db.filterOptions)
    ensures !ok ==> db.filterOptions == tagged
  {
    ok := PropertyFilterSeeder.Run(db);
    tagged := db.filterOptions;
    if !ok {
      return;
    }
    ghost var filters1, links1 := db.filters, db.propertyOptions;
    FilterOptionSeeder.Run(db);
    PropertyFilterSeeder.FullyTaggedMono(filters1, db.filters, tagged, db.filterOptions, links1, db.propertyOptions, db.properties);
  }
}
