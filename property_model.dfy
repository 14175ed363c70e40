/**
 * The unit model's relations. As written, `Property` declares one relation,
 * `project()`; the listing, the detail view, the unit screens and the tagging
 * seeder also use `attachment()` (the attachable trait that `Project` and
 * `User` carry) and `filterOptions()` (the `property_filter_option` links).
 * Eloquent raises on a relation the model does not declare: at once for a
 * call such as `$property->attachment()`, and for `with([...])` only once the
 * query has fetched a row to load it onto.
 */
module PropertyModel {
  /** The relations `Property` declares as written. */
  const Declared: set<string> := {"project"}

  /** The relations its callers use; the rest of this model takes them as declared. */
  const Intended: set<string> := {"project", "attachment", "filterOptions"}

  /** The relations `listProperties` and `getPropertyDetails` eager-load. */
  const EagerLoaded: seq<string> := ["project", "attachment", "filterOptions"]

  /** Calling relation `name` on a unit succeeds. */
  predicate Resolves(declared: set<string>, name: string) {
    name in declared
  }

  /** `with(names)` on a query that fetched `rows` rows succeeds. */
  predicate EagerLoads(declared: set<string>, names: seq<string>, rows: nat) {
    rows == 0 || forall i :: 0 <= i < |names| ==> Resolves(declared, names[i])
  }

  /**
   * As written, the eager load of the listing and the detail view succeeds
   * exactly when it fetched nothing, and neither `attachment()` nor
   * `filterOptions()` can be called; with the intended relations all of it
   * succeeds.
   */
  lemma AsWrittenRelations(rows: nat)
    ensures EagerLoads(Declared, EagerLoaded, rows) <==> rows == 0
    ensures !Resolves(Declared, "attachment") && !Resolves(Declared, "filterOptions")
    ensures EagerLoads(Intended, EagerLoaded, rows)
    ensures Resolves(Intended, "attachment") && Resolves(Intended, "filterOptions")
  {
    if rows > 0 {
      assert !Resolves(Declared, EagerLoaded[1]);
    }
  }
}
