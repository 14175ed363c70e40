/**
 * The two ways the seeders write catalogue rows. Eloquent `firstOrCreate`
 * looks a row up by its key columns and inserts one only when none is found,
 * so an existing row is never relabelled. Query-builder `upsert` keyed by id
 * writes the listed columns whether or not the row exists.
 */
module Catalog {
  import opened Wrappers
  import opened Schema
  import opened Ordering

  /** The first element of a list of keys, as `->first()` returns it. */
  function First(s: seq<nat>): (r: Option<nat>)
    ensures r.Some? <==> s != []
    ensures r.Some? ==> r.value == s[0]
  {
    if s == [] then None else Some(s[0])
  }

  /** `Filter::where('slug', $slug)->first()`: the lowest-keyed filter with that slug. */
  function FindFilter(filters: map<Id, Filter>, bound: nat, slug: string): (r: Option<Id>)
    ensures r.Some? ==> r.value in filters && filters[r.value].slug == slug
    ensures r.None? ==> forall k :: k in filters && k < bound ==> filters[k].slug != slug
  {
    var hits := Keep(Scan(filters, bound), k => k in filters && filters[k].slug == slug);
    assert hits != [] ==> hits[0] in hits;
    First(hits)
  }

  /** An option with key (filter_id, value) exists. */
  ghost predicate HasOption(options: map<Id, FilterOption>, fid: Id, value: string) {
    exists o :: o in options && options[o].filterId == fid && options[o].value == value
  }

  /** The lookup half of `FilterOption::firstOrCreate(['filter_id' => .., 'value' => ..], ..)`. */
  function FindOption(options: map<Id, FilterOption>, bound: nat, fid: Id, value: string): (r: Option<Id>)
    ensures r.Some? ==> r.value in options && options[r.value].filterId == fid && options[r.value].value == value
    ensures r.None? ==> forall k :: k in options && k < bound ==> !(options[k].filterId == fid && options[k].value == value)
  {
    var hits := Keep(Scan(options, bound), k => k in options && options[k].filterId == fid && options[k].value == value);
    assert hits != [] ==> hits[0] in hits;
    First(hits)
  }

  /** The option table after `firstOrCreate` with the given key and label, when `next` is the id it would use. */
  ghost function OptionsAfterFirstOrCreate(options: map<Id, FilterOption>, next: Id, fid: Id, value: string, caption: string)
    : map<Id, FilterOption>
  {
    if HasOption(options, fid, value) then options else options[next := FilterOption(fid, caption, value)]
  }

  /** Upsert keyed by id: each listed row is written, so the last row listed for an id wins. */
  function Upserted<T>(m: map<Id, T>, rows: seq<(Id, T)>): map<Id, T>
  {
    if rows == [] then m else Upserted(m, rows[..|rows| - 1])[rows[|rows| - 1].0 := rows[|rows| - 1].1]
  }

  /** The ids a list of rows names. */
  function RowIds<T>(rows: seq<(Id, T)>): (r: set<Id>)
    ensures forall k :: k in r <==> exists i :: 0 <= i < |rows| && rows[i].0 == k
  {
    set i | 0 <= i < |rows| :: rows[i].0
  }

  /** After an upsert the table has exactly the old ids plus the listed ones, and unlisted rows are untouched. */
  lemma {:induction false} UpsertedFrame<T>(m: map<Id, T>, rows: seq<(Id, T)>)
    ensures Upserted(m, rows).Keys == m.Keys + RowIds(rows)
    ensures forall k :: k in m && k !in RowIds(rows) ==> Upserted(m, rows)[k] == m[k]
  {
    if rows != [] {
      var init := rows[..|rows| - 1];
      UpsertedFrame(m, init);
      assert RowIds(rows) == RowIds(init) + {rows[|rows| - 1].0} by {
        forall k | k in RowIds(rows) ensures k in RowIds(init) + {rows[|rows| - 1].0} {
          var i :| 0 <= i < |rows| && rows[i].0 == k;
          if i < |rows| - 1 {
            assert init[i] == rows[i];
          }
        }
        forall k | k in RowIds(init) ensures k in RowIds(rows) {
          var i :| 0 <= i < |init| && init[i].0 == k;
          assert rows[i] == init[i];
        }
      }
    }
  }

  /** A listed row not listed again later has exactly its listed values afterwards, whatever was there before. */
  lemma {:induction false} UpsertedRow<T>(m: map<Id, T>, rows: seq<(Id, T)>, i: nat)
    requires i < |rows|
    requires forall j :: i < j < |rows| ==> rows[j].0 != rows[i].0
    ensures rows[i].0 in Upserted(m, rows) && Upserted(m, rows)[rows[i].0] == rows[i].1
    decreases |rows|
  {
    if i < |rows| - 1 {
      var init := rows[..|rows| - 1];
      assert init[i] == rows[i];
      UpsertedRow(m, init, i);
    }
  }

  /** Upserting the same rows a second time changes nothing. */
  lemma {:induction false} UpsertedIdempotent<T>(m: map<Id, T>, rows: seq<(Id, T)>)
    ensures Upserted(Upserted(m, rows), rows) == Upserted(m, rows)
  {
    var once := Upserted(m, rows);
    var twice := Upserted(once, rows);
    UpsertedFrame(m, rows);
    UpsertedFrame(once, rows);
    forall k | k in RowIds(rows) ensures twice[k] == once[k] {
      var i :| 0 <= i < |rows| && rows[i].0 == k;
      while i + 1 < |rows| && exists j :: i < j < |rows| && rows[j].0 == k
        invariant 0 <= i < |rows| && rows[i].0 == k
        decreases |rows| - i
      {
        var j :| i < j < |rows| && rows[j].0 == k;
        i := j;
      }
      UpsertedRow(m, rows, i);
      UpsertedRow(once, rows, i);
    }
  }

  /**
   * The contrast between the two writers: given an option whose label is `old`,
   * find-or-create with another label keeps `old`, an upsert of the same row
   * with the other label replaces it.
   */
  lemma FindOrCreateKeepsUpsertReplaces(options: map<Id, FilterOption>, next: Id, o: Id, caption: string)
    requires KeysBelow(options, next) && o in options
    ensures OptionsAfterFirstOrCreate(options, next, options[o].filterId, options[o].value, caption)[o].caption
      == options[o].caption
    ensures Upserted(options, [(o, options[o].(caption := caption))])[o].caption == caption
  {
    assert HasOption(options, options[o].filterId, options[o].value);
    assert [(o, options[o].(caption := caption))][..0] == [];
  }

  /** `Filter::firstOrCreate(['slug' => $slug], ['name' => $name, 'type' => $kind])`. */
  method FirstOrCreateFilter(db: Database, slug: string, name: string, kind: string) returns (fid: Id)
    requires db.Valid()
    modifies db`filters, db`nextId
    ensures db.Valid()
    ensures fid in db.filters && db.filters[fid].slug == slug
    ensures forall k :: k in db.filters && db.filters[k].slug == slug ==> k == fid
    ensures old(fid in db.filters) ==> db.filters == old(db.filters) && db.nextId == old(db.nextId)
    ensures old(fid !in db.filters) ==>
      && (forall k :: k in old(db.filters) ==> old(db.filters[k].slug) != slug)
      && db.filters == old(db.filters)[fid := Filter(name, slug, kind)]
  {
    var found := FindFilter(db.filters, db.nextId, slug);
    if found.Some? {
      fid := found.value;
    } else {
      fid := NewId(db);
      db.filters := db.filters[fid := Filter(name, slug, kind)];
    }
  }

  /** `FilterOption::firstOrCreate(['filter_id' => $fid, 'value' => $value], ['label' => $caption])`. */
  method FirstOrCreateOption(db: Database, fid: Id, value: string, caption: string) returns (oid: Id)
    requires db.Valid()
    modifies db`filterOptions, db`nextId
    ensures db.Valid()
    ensures oid in db.filterOptions && db.filterOptions[oid].filterId == fid && db.filterOptions[oid].value == value
    ensures db.filterOptions == OptionsAfterFirstOrCreate(old(db.filterOptions), old(db.nextId), fid, value, caption)
    ensures old(HasOption(db.filterOptions, fid, value)) ==> db.nextId == old(db.nextId)
  {
    var found := FindOption(db.filterOptions, db.nextId, fid, value);
    if found.Some? {
      oid := found.value;
    } else {
      oid := NewId(db);
      db.filterOptions := db.filterOptions[oid := FilterOption(fid, caption, value)];
    }
  }
}
