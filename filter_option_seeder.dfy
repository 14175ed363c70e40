/**
 * The fixed option catalogue: for each of eight filters, find the filter by
 * slug (creating it when missing) and find-or-create one option per listed
 * value. An option that already exists keeps its label.
 */
module FilterOptionSeeder {
  import opened Wrappers
  import opened Text
  import opened Schema
  import opened Catalog

  /** One `['label' => .., 'value' => ..]` entry of a list. */
  datatype Choice = Choice(caption: string, value: string)

  /** One `seedOptions($name, $slug, $options)` call of `run`. */
  datatype Group = Group(name: string, slug: string, choices: seq<Choice>)

  function PriceChoices(): seq<Choice> {
    [ Choice("Under \U{20B9}50 Lakhs", "0-5000000"),
      Choice("\U{20B9}50 L - \U{20B9}1 Cr", "5000000-10000000"),
      Choice("\U{20B9}1 Cr - \U{20B9}1.5 Cr", "10000000-15000000"),
      Choice("\U{20B9}1.5 Cr - \U{20B9}2 Cr", "15000000-20000000"),
      Choice("\U{20B9}2 Cr - \U{20B9}3 Cr", "20000000-30000000"),
      Choice("\U{20B9}3 Cr - \U{20B9}5 Cr", "30000000-50000000"),
      Choice("Above \U{20B9}5 Cr", "50000000-9999999999") ]
  }

  function CarpetChoices(): seq<Choice> {
    [ Choice("Under 500 sqft", "0-500"),
      Choice("500 - 800 sqft", "500-800"),
      Choice("800 - 1200 sqft", "800-1200"),
      Choice("1200 - 1800 sqft", "1200-1800"),
      Choice("1800 - 2500 sqft", "1800-2500"),
      Choice("Above 2500 sqft", "2500-99999") ]
  }

  function FloorChoices(): seq<Choice> {
    [ Choice("Ground / Low Rise (0-4)", "0-4"),
      Choice("Mid Rise (5-10)", "5-10"),
      Choice("High Rise (11-20)", "11-20"),
      Choice("Sky High (21+)", "21-200") ]
  }

  /** The eight calls of `run`, in order (location is deliberately not seeded). */
  function Catalogue(): seq<Group> {
    [ Group("Price", "price", PriceChoices()),
      Group("Carpet Area", "carpet-area", CarpetChoices()),
      Group("Floor", "floor", FloorChoices()),
      Group("Financing", "financing",
            [Choice("Loan Available", "Loan"), Choice("Full Payment Only", "Full Payment"), Choice("Both Options", "Both")]),
      Group("BHK", "bhk",
            [ Choice("1 BHK", "1"), Choice("1.5 BHK", "1.5"), Choice("2 BHK", "2"), Choice("2.5 BHK", "2.5"),
              Choice("3 BHK", "3"), Choice("3.5 BHK", "3.5"), Choice("4 BHK", "4"), Choice("4+ BHK", "4+"),
              Choice("Studio", "Studio") ]),
      Group("Property Type", "property-type",
            [ Choice("Apartment", "Apartment"), Choice("Villa", "Villa"), Choice("Plot", "Plot"),
              Choice("Studio", "Studio"), Choice("Penthouse", "Penthouse") ]),
      Group("Construction Status", "construction-status",
            [ Choice("Ready to Move", "Ready to Move"), Choice("Under Construction", "Under Construction"),
              Choice("New Launch", "New Launch") ]),
      Group("Possession Date", "possession-date",
            [ Choice("Immediate", "0"), Choice("Within 3 Months", "3"), Choice("Within 6 Months", "6"),
              Choice("Within 1 Year", "12"), Choice("Within 2 Years", "24"), Choice("Long Term (2+)", "25+") ]) ]
  }

  // ---------------------------------------------------------------- range values

  /** The text after the first `-` of a range value "low-high" (empty when there is none). */
  function UpperOf(v: string): (r: string)
    ensures '-' in v ==> BeforeFirst(v, '-') + "-" + r == v
  {
    var low := BeforeFirst(v, '-');
    if |low| < |v| then v[|low| + 1..] else ""
  }

  /** Each range ends where the next one starts. */
  ghost predicate Contiguous(choices: seq<Choice>) {
    forall i :: 0 <= i < |choices| - 1 ==> UpperOf(choices[i].value) == BeforeFirst(choices[i + 1].value, '-')
  }

  lemma {:induction false} SplitAtDash(v: string, low: string, high: string)
    requires v == low + "-" + high && '-' !in low
    ensures BeforeFirst(v, '-') == low && UpperOf(v) == high
  {
    if low != [] {
      SplitAtDash(v[1..], low[1..], high);
      assert v[1..] == low[1..] + "-" + high;
    }
  }

  /** Range values listed as their successive bounds tile the range: each ends where the next starts. */
  lemma {:induction false} BoundsContiguous(choices: seq<Choice>, bounds: seq<string>)
    requires |bounds| == |choices| + 1 && forall b :: b in bounds ==> '-' !in b
    requires forall i :: 0 <= i < |choices| ==> choices[i].value == bounds[i] + "-" + bounds[i + 1]
    ensures Contiguous(choices)
    ensures choices != [] ==> BeforeFirst(choices[0].value, '-') == bounds[0]
  {
    forall i | 0 <= i < |choices|
      ensures BeforeFirst(choices[i].value, '-') == bounds[i] && UpperOf(choices[i].value) == bounds[i + 1]
    {
      SplitAtDash(choices[i].value, bounds[i], bounds[i + 1]);
    }
  }

  /** The successive bounds of the price buckets. */
  const PriceBounds: seq<string> := ["0", "5000000", "10000000", "15000000", "20000000", "30000000", "50000000", "9999999999"]

  /** Each price value is "low-high" for two successive bounds. */
  lemma PriceValuesAreBounds()
    ensures |PriceBounds| == |PriceChoices()| + 1
    ensures forall i :: 0 <= i < |PriceChoices()| ==> PriceChoices()[i].value == PriceBounds[i] + "-" + PriceBounds[i + 1]
  {
    forall i | 0 <= i < |PriceChoices()| ensures PriceChoices()[i].value == PriceBounds[i] + "-" + PriceBounds[i + 1] {
      if i == 0 { assert PriceChoices()[0].value == "0" + "-" + "5000000"; }
      else if i == 1 { assert PriceChoices()[1].value == "5000000" + "-" + "10000000"; }
      else if i == 2 { assert PriceChoices()[2].value == "10000000" + "-" + "15000000"; }
      else if i == 3 { assert PriceChoices()[3].value == "15000000" + "-" + "20000000"; }
      else if i == 4 { assert PriceChoices()[4].value == "20000000" + "-" + "30000000"; }
      else if i == 5 { assert PriceChoices()[5].value == "30000000" + "-" + "50000000"; }
      else { assert PriceChoices()[6].value == "50000000" + "-" + "9999999999"; }
    }
  }

  /** No price bound contains a dash. */
  lemma PriceBoundsUndashed()
    ensures forall b :: b in PriceBounds ==> '-' !in b
  {
  }

  /** The price buckets tile the range from 0 upwards without gap or overlap. */
  lemma PriceRangesContiguous()
    ensures Contiguous(PriceChoices()) && BeforeFirst(PriceChoices()[0].value, '-') == "0"
  {
    PriceValuesAreBounds();
    PriceBoundsUndashed();
    BoundsContiguous(PriceChoices(), PriceBounds);
  }

  /** The carpet-area buckets tile the range from 0 upwards without gap or overlap. */
  lemma CarpetRangesContiguous()
    ensures Contiguous(CarpetChoices()) && BeforeFirst(CarpetChoices()[0].value, '-') == "0"
  {
    BoundsContiguous(CarpetChoices(), ["0", "500", "800", "1200", "1800", "2500", "99999"]);
  }

  // ---------------------------------------------------------------- seeding

  /** Option row `o` was created by this list: it carries the label of the first entry listing its value. */
  ghost predicate FirstListed(choices: seq<Choice>, fid: Id, o: FilterOption) {
    && o.filterId == fid
    && exists i :: 0 <= i < |choices| && choices[i] == Choice(o.caption, o.value)
         && forall j :: 0 <= j < i ==> choices[j].value != o.value
  }

  /** Every option created since `options0` was created by this list. */
  ghost predicate CreatedFrom(choices: seq<Choice>, fid: Id, options0: map<Id, FilterOption>, options: map<Id, FilterOption>) {
    forall o :: o in options && o !in options0 ==> FirstListed(choices, fid, options[o])
  }

  /** The filter with `slug` exists and has an option for every listed value. */
  ghost predicate Seeded(filters: map<Id, Filter>, options: map<Id, FilterOption>, slug: string, choices: seq<Choice>) {
    exists fid :: fid in filters && filters[fid].slug == slug
      && forall i :: 0 <= i < |choices| ==> HasOption(options, fid, choices[i].value)
  }

  /** Adding filters and options never undoes seeding. */
  lemma SeededMono(f1: map<Id, Filter>, f2: map<Id, Filter>, o1: map<Id, FilterOption>, o2: map<Id, FilterOption>,
                   slug: string, choices: seq<Choice>)
    requires Extends(f1, f2) && Extends(o1, o2) && Seeded(f1, o1, slug, choices)
    ensures Seeded(f2, o2, slug, choices)
  {
    var fid :| fid in f1 && f1[fid].slug == slug
      && forall i :: 0 <= i < |choices| ==> HasOption(o1, fid, choices[i].value);
    assert f2[fid] == f1[fid];
    forall i | 0 <= i < |choices| ensures HasOption(o2, fid, choices[i].value) {
      assert HasOption(o1, fid, choices[i].value);
      var o :| o in o1 && o1[o].filterId == fid && o1[o].value == choices[i].value;
      assert o in o2 && o2[o] == o1[o];
    }
  }

  /** The first `n` listed values have an option under filter `fid`. */
  ghost predicate ListedUpTo(options: map<Id, FilterOption>, fid: Id, choices: seq<Choice>, n: nat) {
    n <= |choices| && forall i :: 0 <= i < n ==> HasOption(options, fid, choices[i].value)
  }

  /** One `firstOrCreate` of the loop keeps the listed prefix covered and every new option first-listed. */
  lemma SeedStep(options0: map<Id, FilterOption>, options1: map<Id, FilterOption>, next: Id,
                 fid: Id, choices: seq<Choice>, n: nat)
    requires n < |choices| && KeysBelow(options1, next)
    requires ListedUpTo(options1, fid, choices, n) && CreatedFrom(choices, fid, options0, options1)
    ensures var options2 := OptionsAfterFirstOrCreate(options1, next, fid, choices[n].value, choices[n].caption);
      && Extends(options1, options2)
      && ListedUpTo(options2, fid, choices, n + 1) && CreatedFrom(choices, fid, options0, options2)
  {
    var options2 := OptionsAfterFirstOrCreate(options1, next, fid, choices[n].value, choices[n].caption);
    var had := HasOption(options1, fid, choices[n].value);
    if !had {
      assert options2 == options1[next := FilterOption(fid, choices[n].caption, choices[n].value)];
      assert next !in options1;
      forall j | 0 <= j < n ensures choices[j].value != choices[n].value {
        assert HasOption(options1, fid, choices[j].value);
      }
      assert FirstListed(choices, fid, options2[next]);
      assert HasOption(options2, fid, choices[n].value) by {
        assert options2[next].filterId == fid;
      }
      forall i | 0 <= i < n ensures HasOption(options2, fid, choices[i].value) {
        assert HasOption(options1, fid, choices[i].value);
        var o :| o in options1 && options1[o].filterId == fid && options1[o].value == choices[i].value;
        assert options2[o] == options1[o];
      }
    }
  }

  /**
   * `seedOptions($name, $slug, $options)`: the filter found by slug (or created
   * with `name` and type 'select'), then `firstOrCreate` for each entry in order.
   */
  method SeedOptions(db: Database, name: string, slug: string, choices: seq<Choice>) returns (fid: Id)
    requires db.Valid()
    modifies db`filters, db`filterOptions, db`nextId
    ensures db.Valid()
    ensures fid in db.filters && db.filters[fid].slug == slug
    ensures forall k :: k in db.filters && db.filters[k].slug == slug ==> k == fid
    ensures old(fid in db.filters) ==> db.filters == old(db.filters)
    ensures old(fid !in db.filters) ==> db.filters == old(db.filters)[fid := Filter(name, slug, "select")]
    ensures forall i :: 0 <= i < |choices| ==> HasOption(db.filterOptions, fid, choices[i].value)
    ensures Extends(old(db.filterOptions), db.filterOptions)
    ensures CreatedFrom(choices, fid, old(db.filterOptions), db.filterOptions)
    ensures old(Seeded(db.filters, db.filterOptions, slug, choices)) ==>
      db.filters == old(db.filters) && db.filterOptions == old(db.filterOptions) && db.nextId == old(db.nextId)
  {
    ghost var wasSeeded := Seeded(db.filters, db.filterOptions, slug, choices);
    ghost var filters0 := db.filters;
    fid := FirstOrCreateFilter(db, slug, name, "select");
    ghost var filters1, options0, next0 := db.filters, db.filterOptions, db.nextId;
    if wasSeeded {
      var g :| g in filters0 && filters0[g].slug == slug
        && forall i :: 0 <= i < |choices| ==> HasOption(options0, g, choices[i].value);
      assert g == fid;
    }
    var n := 0;
    while n < |choices|
      invariant 0 <= n <= |choices|
      invariant db.Valid() && db.filters == filters1
      invariant Extends(options0, db.filterOptions)
      invariant ListedUpTo(db.filterOptions, fid, choices, n)
      invariant CreatedFrom(choices, fid, options0, db.filterOptions)
      invariant wasSeeded ==> db.filterOptions == options0 && db.nextId == next0
    {
      SeedStep(options0, db.filterOptions, db.nextId, fid, choices, n);
      var _ := FirstOrCreateOption(db, fid, choices[n].value, choices[n].caption);
      n := n + 1;
    }
  }

  /** The first `n` of `groups` are seeded. */
  ghost predicate SeededUpTo(groups: seq<Group>, filters: map<Id, Filter>, options: map<Id, FilterOption>, n: nat) {
    n <= |groups| && forall k :: 0 <= k < n ==> Seeded(filters, options, groups[k].slug, groups[k].choices)
  }

  /** The whole catalogue is seeded. */
  ghost predicate CatalogueSeeded(filters: map<Id, Filter>, options: map<Id, FilterOption>) {
    SeededUpTo(Catalogue(), filters, options, |Catalogue()|)
  }

  /** Every filter and option created since `filters0`/`options0` comes from one of `groups`. */
  ghost predicate FromGroups(groups: seq<Group>, filters0: map<Id, Filter>, filters: map<Id, Filter>,
                             options0: map<Id, FilterOption>, options: map<Id, FilterOption>) {
    && (forall f :: f in filters && f !in filters0 ==>
          exists g :: g in groups && filters[f] == Filter(g.name, g.slug, "select"))
    && (forall o :: o in options && o !in options0 ==>
          options[o].filterId in filters
          && exists g :: g in groups && filters[options[o].filterId].slug == g.slug
               && FirstListed(g.choices, options[o].filterId, options[o]))
  }

  lemma SeededUpToStep(groups: seq<Group>, f1: map<Id, Filter>, f2: map<Id, Filter>,
                       o1: map<Id, FilterOption>, o2: map<Id, FilterOption>, n: nat)
    requires Extends(f1, f2) && Extends(o1, o2) && n < |groups| && SeededUpTo(groups, f1, o1, n)
    requires Seeded(f2, o2, groups[n].slug, groups[n].choices)
    ensures SeededUpTo(groups, f2, o2, n + 1)
  {
    forall k | 0 <= k < n ensures Seeded(f2, o2, groups[k].slug, groups[k].choices) {
      SeededMono(f1, f2, o1, o2, groups[k].slug, groups[k].choices);
    }
  }

  lemma FromGroupsStep(groups: seq<Group>, f0: map<Id, Filter>, f1: map<Id, Filter>, f2: map<Id, Filter>,
                          o0: map<Id, FilterOption>, o1: map<Id, FilterOption>, o2: map<Id, FilterOption>, g: Group, fid: Id)
    requires Extends(f1, f2) && Extends(o1, o2) && g in groups && FromGroups(groups, f0, f1, o0, o1)
    requires fid in f2 && f2[fid].slug == g.slug
    requires forall f :: f in f2 && f !in f1 ==> f2[f] == Filter(g.name, g.slug, "select")
    requires CreatedFrom(g.choices, fid, o1, o2)
    ensures FromGroups(groups, f0, f2, o0, o2)
  {
    forall f | f in f2 && f !in f0 ensures exists g' :: g' in groups && f2[f] == Filter(g'.name, g'.slug, "select") {
      if f in f1 {
        assert f2[f] == f1[f];
      } else {
        assert f2[f] == Filter(g.name, g.slug, "select");
      }
    }
    forall o | o in o2 && o !in o0
      ensures o2[o].filterId in f2
      ensures exists g' :: g' in groups && f2[o2[o].filterId].slug == g'.slug && FirstListed(g'.choices, o2[o].filterId, o2[o])
    {
      if o in o1 {
        assert o2[o] == o1[o];
        var g' :| g' in groups && f1[o1[o].filterId].slug == g'.slug && FirstListed(g'.choices, o1[o].filterId, o1[o]);
        assert f2[o1[o].filterId] == f1[o1[o].filterId];
      } else {
        assert FirstListed(g.choices, fid, o2[o]);
      }
    }
  }

  /** The seeder's `run`: the eight `seedOptions` calls of the catalogue, in order. */
  method Run(db: Database)
    requires db.Valid()
    modifies db`filters, db`filterOptions, db`nextId
    ensures db.Valid()
    ensures Extends(old(db.filters), db.filters) && Extends(old(db.filterOptions), db.filterOptions)
    ensures CatalogueSeeded(db.filters, db.filterOptions)
    ensures FromGroups(Catalogue(), old(db.filters), db.filters, old(db.filterOptions), db.filterOptions)
    ensures old(CatalogueSeeded(db.filters, db.filterOptions)) ==>
      db.filters == old(db.filters) && db.filterOptions == old(db.filterOptions) && db.nextId == old(db.nextId)
  {
    SeedGroups(db, Catalogue());
  }

  /** `seedOptions` for each of `groups`, in order. */
  method SeedGroups(db: Database, groups: seq<Group>)
    requires db.Valid()
    modifies db`filters, db`filterOptions, db`nextId
    ensures db.Valid()
    ensures Extends(old(db.filters), db.filters) && Extends(old(db.filterOptions), db.filterOptions)
    ensures SeededUpTo(groups, db.filters, db.filterOptions, |groups|)
    ensures FromGroups(groups, old(db.filters), db.filters, old(db.filterOptions), db.filterOptions)
    ensures old(SeededUpTo(groups, db.filters, db.filterOptions, |groups|)) ==>
      db.filters == old(db.filters) && db.filterOptions == old(db.filterOptions) && db.nextId == old(db.nextId)
  {
    ghost var filters0, options0 := db.filters, db.filterOptions;
    ghost var wasAll := SeededUpTo(groups, filters0, options0, |groups|);
    var n := 0;
    while n < |groups|
      invariant 0 <= n <= |groups|
      invariant db.Valid()
      invariant Extends(filters0, db.filters) && Extends(options0, db.filterOptions)
      invariant SeededUpTo(groups, db.filters, db.filterOptions, n)
      invariant FromGroups(groups, filters0, db.filters, options0, db.filterOptions)
      invariant wasAll ==> db.filters == filters0 && db.filterOptions == options0 && db.nextId == old(db.nextId)
    {
      var g := groups[n];
      ghost var filters1, options1 := db.filters, db.filterOptions;
      if wasAll {
        assert Seeded(filters1, options1, g.slug, g.choices);
      }
      var fid := SeedOptions(db, g.name, g.slug, g.choices);
      SeededUpToStep(groups, filters1, db.filters, options1, db.filterOptions, n);
      FromGroupsStep(groups, filters0, filters1, db.filters, options0, options1, db.filterOptions, g, fid);
      n := n + 1;
    }
  }

  /** Once a list is seeded, its filter has exactly one option per listed value. */
  lemma ExactlyOneOption(filters: map<Id, Filter>, options: map<Id, FilterOption>, slug: string, choices: seq<Choice>, i: nat)
    requires OptionKeysUnique(options) && Seeded(filters, options, slug, choices) && i < |choices|
    ensures exists fid, o ::
      && fid in filters && filters[fid].slug == slug && o in options
      && options[o] == FilterOption(fid, options[o].caption, choices[i].value)
      && forall o' :: o' in options && options[o'].filterId == fid && options[o'].value == choices[i].value ==> o' == o
  {
    var fid :| fid in filters && filters[fid].slug == slug
      && forall k :: 0 <= k < |choices| ==> HasOption(options, fid, choices[k].value);
    assert HasOption(options, fid, choices[i].value);
    var o :| o in options && options[o].filterId == fid && options[o].value == choices[i].value;
    assert options[o] == FilterOption(fid, options[o].caption, choices[i].value);
  }
}
