/**
 * The tagging seeder: for each of nine property columns it finds or creates a
 * `select` filter, then, for every property with a value in that column,
 * finds or creates the option keyed by (filter, raw value) with a display
 * label, and links the property to it without removing earlier links.
 */
module PropertyFilterSeeder {
  import opened Wrappers
  import opened Text
  import opened Schema
  import opened Ordering
  import opened Catalog
  import PropertyModel

  // ---------------------------------------------------------------- the mapping

  /** The property columns the seeder reads. */
  datatype Column = Bhk | Kind | Location | ConstructionStatus | PossessionDate | Financing | FloorNumber | CarpetArea | Price

  /** The mappings, in the order the seeder walks them. */
  const Mappings: seq<Column> := [Bhk, Kind, Location, ConstructionStatus, PossessionDate, Financing, FloorNumber, CarpetArea, Price]

  /** The filter name each mapping creates. */
  function DisplayName(c: Column): string {
    match c
    case Bhk => "BHK"
    case Kind => "Property Type"
    case Location => "Location"
    case ConstructionStatus => "Construction Status"
    case PossessionDate => "Possession Date"
    case Financing => "Financing"
    case FloorNumber => "Floor"
    case CarpetArea => "Carpet Area"
    case Price => "Price"
  }

  /** `Str::slug` of each filter name. */
  function SlugOf(c: Column): string {
    match c
    case Bhk => "bhk"
    case Kind => "property-type"
    case Location => "location"
    case ConstructionStatus => "construction-status"
    case PossessionDate => "possession-date"
    case Financing => "financing"
    case FloorNumber => "floor"
    case CarpetArea => "carpet-area"
    case Price => "price"
  }

  lemma MappingsCoverColumns(c: Column)
    ensures c in Mappings
  {
  }

  // ---------------------------------------------------------------- cell values

  /** A column value as PHP sees it: a string column or an integer column. */
  datatype Cell = Str(s: string) | Int(n: int)

  function TextCell(v: Option<string>): Option<Cell> {
    if v.Some? then Some(Str(v.value)) else None
  }

  function IntCell(v: Option<int>): Option<Cell> {
    if v.Some? then Some(Int(v.value)) else None
  }

  /** `$property->{$column}`; None is SQL NULL, which `whereNotNull` excludes. */
  function Raw(p: Property, c: Column): Option<Cell> {
    match c
    case Bhk => TextCell(p.bhk)
    case Kind => TextCell(p.propertyType)
    case Location => TextCell(p.location)
    case ConstructionStatus => TextCell(p.constructionStatus)
    case PossessionDate => TextCell(p.possessionDate)
    case Financing => TextCell(p.financingOption)
    case FloorNumber => IntCell(p.floorNumber)
    case CarpetArea => IntCell(p.carpetArea)
    case Price => IntCell(p.price)
  }

  /** Strings are trimmed; integers are kept. */
  function Clean(v: Cell): Cell {
    match v
    case Str(s) => Str(Trim(s))
    case Int(n) => Int(n)
  }

  /** PHP `empty()` on a non-null string or integer. */
  predicate PhpEmpty(v: Cell) {
    match v
    case Str(s) => s == "" || s == "0"
    case Int(n) => n == 0
  }

  /** The string stored in `filter_options.value`. */
  function OptionValue(v: Cell): string {
    match v
    case Str(s) => s
    case Int(n) => IntToString(n)
  }

  /**
   * The value a property contributes to a column: the cleaned value, or None
   * when the column is NULL or the cleaned value is PHP-empty. A contributed
   * value is never "", never "0" and has no outer blanks.
   */
  function Tag(p: Property, c: Column): (r: Option<Cell>)
    ensures r.Some? <==> Raw(p, c).Some? && !PhpEmpty(Clean(Raw(p, c).value))
    ensures r.Some? ==> OptionValue(r.value) != "" && OptionValue(r.value) != "0"
    ensures r.Some? && r.value.Str? ==> Trim(r.value.s) == r.value.s
  {
    match Raw(p, c)
    case None => None
    case Some(v) =>
      var w := Clean(v);
      if PhpEmpty(w) then None
      else
        assert w.Int? ==> w.n != 0 && OptionValue(w) != "0" by {
          if w.Int? && w.n > 0 {
            assert NatToString(w.n) != "0";
          }
        }
        assert w.Str? ==> Trim(w.s) == w.s by {
          if w.Str? { TrimIdempotent(v.s); }
        }
        Some(w)
  }

  // ---------------------------------------------------------------- labels

  /** The `$ends` table of the ordinal helper, indexed by the last digit. */
  const Ends: seq<string> := ["th", "st", "nd", "rd", "th", "th", "th", "th", "th", "th"]

  /**
   * The ordinal helper. For a negative number whose truncated remainder by 10
   * is non-zero the index into `Ends` is negative: the undefined-key warning
   * becomes an exception under the framework, so there is no result (None).
   */
  function Ordinal(n: int): Option<string> {
    var lastTwo := PhpMod(n, 100);
    if 11 <= lastTwo <= 13 then Some(IntToString(n) + "th")
    else
      var last := PhpMod(n, 10);
      if last < 0 then None else Some(IntToString(n) + Ends[last])
  }

  /** The English ordinal suffix, stated on its own: 11th-13th, otherwise by the last digit. */
  function EnglishSuffix(n: nat): string {
    if 11 <= n % 100 <= 13 then "th"
    else if n % 10 == 1 then "st"
    else if n % 10 == 2 then "nd"
    else if n % 10 == 3 then "rd"
    else "th"
  }

  /** For n >= 0 the helper renders the number with its English suffix. */
  lemma OrdinalNatural(n: nat)
    ensures Ordinal(n) == Some(NatToString(n) + EnglishSuffix(n))
  {
    var last := n % 10;
    assert PhpMod(n, 10) == last;
    if !(11 <= n % 100 <= 13) {
      assert Ends[last] == EnglishSuffix(n) by {
        if last == 1 {} else if last == 2 {} else if last == 3 {} else {}
      }
    }
  }

  /** For n < 0 the helper fails exactly when the last digit is non-zero, and otherwise says "th". */
  lemma OrdinalNegative(n: int)
    requires n < 0
    ensures Ordinal(n).None? <==> (-n) % 10 != 0
    ensures Ordinal(n).Some? ==> Ordinal(n).value == "-" + NatToString(-n) + "th"
  {
    assert PhpMod(n, 100) <= 0;
  }

  const Crore: nat := 10000000
  const Lakh: nat := 100000

  /**
   * `round($p / $unit, 2)` for a positive amount, counted in hundredths of the
   * unit: the nearest hundredth, a half rounding up.
   */
  function RoundHundredths(p: nat, unit: nat): (h: nat)
    requires unit > 0 && unit % 100 == 0
    ensures (2 * h - 1) * (unit / 100) <= 2 * p < (2 * h + 1) * (unit / 100)
  {
    (2 * p + unit / 100) / (2 * (unit / 100))
  }

  /** Two-digit fraction of PHP's float printing: "", ".5" or ".25" (trailing zeros dropped). */
  function Fraction(f: nat): (r: string)
    requires f < 100
    ensures (r == "") <==> f == 0
    ensures r != "" ==> r[0] == '.' && r[|r| - 1] != '0' && forall i :: 1 <= i < |r| ==> IsDigit(r[i])
  {
    if f == 0 then ""
    else if f % 10 == 0 then "." + [DigitChar(f / 10)]
    else "." + [DigitChar(f / 10), DigitChar(f % 10)]
  }

  /** A count of hundredths printed as PHP prints the float: "1.25", "7.5", "2". */
  function Decimal(h: nat): (r: string)
    ensures ('.' in r) <==> h % 100 != 0
    ensures |NatToString(h / 100)| <= |r| && r[..|NatToString(h / 100)|] == NatToString(h / 100)
  {
    var whole := NatToString(h / 100);
    var frac := Fraction(h % 100);
    assert '.' !in whole by {
      forall i | 0 <= i < |whole| ensures whole[i] != '.' {
        assert IsDigit(whole[i]);
      }
    }
    assert (whole + frac)[..|whole|] == whole;
    assert frac != "" ==> (whole + frac)[|whole|] == '.';
    whole + frac
  }

  /** `number_format($p)` with its sign. */
  function Grouped(p: int): string {
    if p < 0 then "-" + GroupThousands(-p) else GroupThousands(p)
  }

  /** The price label: crores from 1 Cr, lakhs from 1 L, a grouped rupee amount below. */
  function FormatPrice(p: int): string {
    if p >= Crore then "\U{20B9} " + Decimal(RoundHundredths(p, Crore)) + " Cr"
    else if p >= Lakh then "\U{20B9} " + Decimal(RoundHundredths(p, Lakh)) + " L"
    else "\U{20B9} " + Grouped(p)
  }

  /**
   * The label chosen for a value: the price format, "<n> sqft", "<ordinal> Floor",
   * or the value with its first letter upper-cased. None when the ordinal fails.
   */
  function Label(c: Column, v: Cell): Option<string> {
    if c == Price && v.Int? then Some(FormatPrice(v.n))
    else if c == CarpetArea && v.Int? then Some(IntToString(v.n) + " sqft")
    else if c == FloorNumber && v.Int? then
      (var o := Ordinal(v.n); if o.Some? then Some(o.value + " Floor") else None)
    else Some(UcFirst(OptionValue(v)))
  }

  /** Only a negative floor number with a non-zero last digit has no label. */
  lemma LabelFails(p: Property, c: Column)
    requires Tag(p, c).Some?
    ensures Label(c, Tag(p, c).value).None? <==>
      c == FloorNumber && p.floorNumber.Some? && p.floorNumber.value < 0 && (-p.floorNumber.value) % 10 != 0
  {
    if c == FloorNumber && p.floorNumber.value < 0 {
      OrdinalNegative(p.floorNumber.value);
    } else if c == FloorNumber {
      OrdinalNatural(p.floorNumber.value);
    }
  }

  /** Worked examples of the three buckets, including the lakh bucket reaching "100 L" just below a crore. */
  lemma CroreLabel()
    ensures FormatPrice(12500000) == "\U{20B9} 1.25 Cr"
  {
    assert RoundHundredths(12500000, Crore) == 125;
    assert NatToString(1) == "1";
    assert Fraction(25) == ".25";
  }

  lemma LakhLabel()
    ensures FormatPrice(750000) == "\U{20B9} 7.5 L"
  {
    assert RoundHundredths(750000, Lakh) == 750;
    assert NatToString(7) == "7";
    assert Fraction(50) == ".5";
  }

  lemma LakhLabelBelowCrore()
    ensures FormatPrice(9999999) == "\U{20B9} 100 L"
  {
    assert RoundHundredths(9999999, Lakh) == 10000;
    assert NatToString(100) == "100";
  }

  lemma RupeeLabel()
    ensures FormatPrice(45000) == "\U{20B9} 45,000"
  {
    assert NatToString(45) == "45";
    assert Pad3(0) == "000";
    assert GroupThousands(45000) == "45" + "," + "000";
    assert FormatPrice(45000) == "\U{20B9} " + GroupThousands(45000);
  }

  // ---------------------------------------------------------------- the tagging run

  /** What one property contributes to one column: the option value and its label (None when the ordinal fails). */
  datatype Entry = Entry(value: string, caption: Option<string>)

  function EntryOf(p: Property, c: Column): (r: Option<Entry>)
    ensures r.Some? <==> Tag(p, c).Some?
  {
    match Tag(p, c)
    case None => None
    case Some(v) => Some(Entry(OptionValue(v), Label(c, v)))
  }

  /** `$property->{$column}` followed by the cleaning and labelling steps, as one accessor per column. */
  function EntryFn(c: Column): Property -> Option<Entry> {
    p => EntryOf(p, c)
  }

  /** Property `p` is linked to an option of filter `fid` whose value is `value`. */
  ghost predicate Linked(options: map<Id, FilterOption>, links: set<Link>, fid: Id, p: Id, value: string) {
    exists o :: o in options && options[o].filterId == fid && options[o].value == value && (p, o) in links
  }

  /** Every property contributing to a column (accessor `entry`) is linked to its value's option under filter `fid`. */
  ghost predicate LinkedColumn(options: map<Id, FilterOption>, links: set<Link>, props: map<Id, Property>,
                               entry: Property -> Option<Entry>, fid: Id) {
    forall p :: p in props && entry(props[p]).Some? ==> Linked(options, links, fid, p, entry(props[p]).value.value)
  }

  /** Column `c` has its filter and every contributed value is linked under it. */
  ghost predicate ColumnTagged(filters: map<Id, Filter>, options: map<Id, FilterOption>, links: set<Link>,
                               props: map<Id, Property>, c: Column) {
    exists fid :: fid in filters && filters[fid].slug == SlugOf(c) && LinkedColumn(options, links, props, EntryFn(c), fid)
  }

  /** The state the seeder aims for: every mapped column tagged. */
  ghost predicate FullyTagged(filters: map<Id, Filter>, options: map<Id, FilterOption>, links: set<Link>,
                              props: map<Id, Property>) {
    forall c: Column :: ColumnTagged(filters, options, links, props, c)
  }

  /** Every value contributed through `entry` has a label. */
  ghost predicate Labelled(props: map<Id, Property>, entry: Property -> Option<Entry>) {
    forall p :: p in props && entry(props[p]).Some? ==> entry(props[p]).value.caption.Some?
  }

  /** Option `o` of filter `fid` carries a value some property contributes through `entry`, with that value's label. */
  ghost predicate DerivedOption(props: map<Id, Property>, entry: Property -> Option<Entry>, fid: Id, o: FilterOption) {
    && o.filterId == fid
    && exists p :: p in props && entry(props[p]) == Some(Entry(o.value, Some(o.caption)))
  }

  /** Link `l` joins a property to an option of filter `fid` whose value the property contributes through `entry`. */
  ghost predicate DerivedLink(options: map<Id, FilterOption>, props: map<Id, Property>, entry: Property -> Option<Entry>,
                              fid: Id, l: Link) {
    && l.0 in props && l.1 in options && options[l.1].filterId == fid
    && entry(props[l.0]).Some? && options[l.1].value == entry(props[l.0]).value.value
  }

  /** A created option belongs to the filter of some column and is derived from that column. */
  ghost predicate Derived(filters: map<Id, Filter>, props: map<Id, Property>, o: FilterOption) {
    o.filterId in filters && exists c :: filters[o.filterId].slug == SlugOf(c) && DerivedOption(props, EntryFn(c), o.filterId, o)
  }

  /** A created link joins a property to an option carrying the value the property contributes to that option's column. */
  ghost predicate Justified(filters: map<Id, Filter>, options: map<Id, FilterOption>, props: map<Id, Property>, l: Link) {
    l.1 in options && options[l.1].filterId in filters
      && exists c :: filters[options[l.1].filterId].slug == SlugOf(c) && DerivedLink(options, props, EntryFn(c), options[l.1].filterId, l)
  }

  lemma LinkedMono(o1: map<Id, FilterOption>, o2: map<Id, FilterOption>, l1: set<Link>, l2: set<Link>,
                   props: map<Id, Property>, entry: Property -> Option<Entry>, fid: Id)
    requires Extends(o1, o2) && l1 <= l2 && LinkedColumn(o1, l1, props, entry, fid)
    ensures LinkedColumn(o2, l2, props, entry, fid)
  {
    forall p | p in props && entry(props[p]).Some?
      ensures Linked(o2, l2, fid, p, entry(props[p]).value.value)
    {
      var o :| o in o1 && o1[o].filterId == fid && o1[o].value == entry(props[p]).value.value && (p, o) in l1;
      assert o in o2 && o2[o] == o1[o];
    }
  }

  /** The first `j` listed properties have their entry labelled and linked under filter `fid`. */
  ghost predicate PrefixDone(options: map<Id, FilterOption>, links: set<Link>, props: map<Id, Property>,
                             entry: Property -> Option<Entry>, fid: Id, ids: seq<Id>, j: nat) {
    j <= |ids| &&
    forall q :: 0 <= q < j && ids[q] in props && entry(props[ids[q]]).Some? ==>
      entry(props[ids[q]]).value.caption.Some? && Linked(options, links, fid, ids[q], entry(props[ids[q]]).value.value)
  }

  lemma PrefixDoneStep(o1: map<Id, FilterOption>, o2: map<Id, FilterOption>, l1: set<Link>, l2: set<Link>,
                       props: map<Id, Property>, entry: Property -> Option<Entry>, fid: Id, ids: seq<Id>, j: nat)
    requires Extends(o1, o2) && l1 <= l2 && PrefixDone(o1, l1, props, entry, fid, ids, j) && j < |ids|
    requires ids[j] in props && entry(props[ids[j]]).Some? ==>
      entry(props[ids[j]]).value.caption.Some? && Linked(o2, l2, fid, ids[j], entry(props[ids[j]]).value.value)
    ensures PrefixDone(o2, l2, props, entry, fid, ids, j + 1)
  {
    forall q | 0 <= q < j && ids[q] in props && entry(props[ids[q]]).Some?
      ensures Linked(o2, l2, fid, ids[q], entry(props[ids[q]]).value.value)
    {
      var v := entry(props[ids[q]]).value.value;
      var o :| o in o1 && o1[o].filterId == fid && o1[o].value == v && (ids[q], o) in l1;
      assert o in o2 && o2[o] == o1[o];
    }
  }

  /**
   * One step of the inner loop: a property's entry, if any, has its option
   * found or created and the link added. Returns false, changing nothing,
   * when the entry has no label.
   */
  method TagOne(db: Database, fid: Id, p: Id, e: Option<Entry>) returns (labelled: bool)
    requires db.Valid()
    modifies db`filterOptions, db`propertyOptions, db`nextId
    ensures db.Valid()
    ensures labelled <==> e.None? || e.value.caption.Some?
    ensures Extends(old(db.filterOptions), db.filterOptions) && old(db.propertyOptions) <= db.propertyOptions
    ensures labelled && e.Some? ==> Linked(db.filterOptions, db.propertyOptions, fid, p, e.value.value)
    ensures forall o :: o in db.filterOptions && o !in old(db.filterOptions) ==>
      e.Some? && e.value.caption.Some? && db.filterOptions[o] == FilterOption(fid, e.value.caption.value, e.value.value)
    ensures forall l :: l in db.propertyOptions && l !in old(db.propertyOptions) ==>
      && l.0 == p && e.Some? && e.value.caption.Some?
      && l.1 in db.filterOptions && db.filterOptions[l.1].filterId == fid && db.filterOptions[l.1].value == e.value.value
    ensures !labelled || e.None? ==>
      db.filterOptions == old(db.filterOptions) && db.propertyOptions == old(db.propertyOptions) && db.nextId == old(db.nextId)
    ensures (e.Some? && old(Linked(db.filterOptions, db.propertyOptions, fid, p, e.value.value)))
      ==> db.filterOptions == old(db.filterOptions) && db.propertyOptions == old(db.propertyOptions) && db.nextId == old(db.nextId)
  {
    if e.None? {
      return true;
    }
    if e.value.caption.None? {
      return false;
    }
    var value := e.value.value;
    ghost var wasLinked := Linked(db.filterOptions, db.propertyOptions, fid, p, value);
    ghost var options0, links0 := db.filterOptions, db.propertyOptions;
    var oid := FirstOrCreateOption(db, fid, value, e.value.caption.value);
    db.propertyOptions := db.propertyOptions + {(p, oid)};
    labelled := true;
    assert Linked(db.filterOptions, db.propertyOptions, fid, p, value);
    if wasLinked {
      var o :| o in options0 && options0[o].filterId == fid && options0[o].value == value && (p, o) in links0;
      assert o == oid;
    }
  }

  /**
   * The same step as written: `Property` declares no `filterOptions()`, so
   * an entry with a label has its option found or created and then the link
   * call raises; an entry without a label raises before that. The walk goes
   * on only past a property without an entry, and no link is ever added.
   */
  method TagOneAsWritten(db: Database, fid: Id, p: Id, e: Option<Entry>) returns (goesOn: bool)
    requires db.Valid()
    modifies db`filterOptions, db`nextId
    ensures db.Valid()
    ensures goesOn <==> e.None?
    ensures e.Some? && e.value.caption.Some? ==>
      db.filterOptions == OptionsAfterFirstOrCreate(old(db.filterOptions), old(db.nextId), fid, e.value.value, e.value.caption.value)
    ensures e.None? || e.value.caption.None? ==> db.filterOptions == old(db.filterOptions) && db.nextId == old(db.nextId)
  {
    if e.None? {
      return true;
    }
    if e.value.caption.Some? {
      var oid := FirstOrCreateOption(db, fid, e.value.value, e.value.caption.value);
      assert !PropertyModel.Resolves(PropertyModel.Declared, "filterOptions");
    }
    goesOn := false;
  }

  /** Every option and link created since `o0`/`l0` is derived from the column `entry` under filter `fid`. */
  ghost predicate ColumnDerived(o0: map<Id, FilterOption>, o: map<Id, FilterOption>, l0: set<Link>, l: set<Link>,
                                props: map<Id, Property>, entry: Property -> Option<Entry>, fid: Id) {
    && (forall k :: k in o && k !in o0 ==> DerivedOption(props, entry, fid, o[k]))
    && (forall k :: k in l && k !in l0 ==> DerivedLink(o, props, entry, fid, k))
  }

  /** A step that creates only derived options and links keeps everything created since `o0`/`l0` derived. */
  lemma DerivedStep(o0: map<Id, FilterOption>, o1: map<Id, FilterOption>, o2: map<Id, FilterOption>,
                    l0: set<Link>, l1: set<Link>, l2: set<Link>, props: map<Id, Property>,
                    entry: Property -> Option<Entry>, fid: Id, p: Id)
    requires Extends(o1, o2) && p in props
    requires ColumnDerived(o0, o1, l0, l1, props, entry, fid)
    requires forall o :: o in o2 && o !in o1 ==>
      && entry(props[p]).Some? && entry(props[p]).value.caption.Some?
      && o2[o] == FilterOption(fid, entry(props[p]).value.caption.value, entry(props[p]).value.value)
    requires forall l :: l in l2 && l !in l1 ==>
      && l.0 == p && entry(props[p]).Some? && entry(props[p]).value.caption.Some?
      && l.1 in o2 && o2[l.1].filterId == fid && o2[l.1].value == entry(props[p]).value.value
    ensures ColumnDerived(o0, o2, l0, l2, props, entry, fid)
  {
    forall o | o in o2 && o !in o0 ensures DerivedOption(props, entry, fid, o2[o]) {
      if o !in o1 {
        assert entry(props[p]) == Some(Entry(o2[o].value, Some(o2[o].caption)));
      }
    }
    forall l | l in l2 && l !in l0 ensures DerivedLink(o2, props, entry, fid, l) {
      if l in l1 {
        assert DerivedLink(o1, props, entry, fid, l);
        assert o2[l.1] == o1[l.1];
      }
    }
  }

  /** A walk over every row that did all of them leaves the column linked and labelled. */
  lemma AllListed(options: map<Id, FilterOption>, links: set<Link>, props: map<Id, Property>,
                  entry: Property -> Option<Entry>, fid: Id, ids: seq<Id>, bound: nat)
    requires KeysBelow(props, bound) && ids == Scan(props, bound)
    requires PrefixDone(options, links, props, entry, fid, ids, |ids|)
    ensures Labelled(props, entry) && LinkedColumn(options, links, props, entry, fid)
  {
    forall p | p in props && entry(props[p]).Some?
      ensures entry(props[p]).value.caption.Some? && Linked(options, links, fid, p, entry(props[p]).value.value)
    {
      assert p in ids;
      var q :| 0 <= q < |ids| && ids[q] == p;
    }
  }

  /**
   * Tags one column, given its accessor: walks the properties in key order
   * and tags each one. A NULL column gives no entry, so the rows
   * `whereNotNull` leaves out are skipped like empty values. Returns false
   * when an entry has no label (the run stops there).
   */
  method TagColumn(db: Database, entry: Property -> Option<Entry>, fid: Id) returns (done: bool)
    requires db.Valid()
    modifies db`filterOptions, db`propertyOptions, db`nextId
    ensures db.Valid()
    ensures Extends(old(db.filterOptions), db.filterOptions) && old(db.propertyOptions) <= db.propertyOptions
    ensures ColumnDerived(old(db.filterOptions), db.filterOptions, old(db.propertyOptions), db.propertyOptions,
                          db.properties, entry, fid)
    ensures done <==> Labelled(db.properties, entry)
    ensures done ==> LinkedColumn(db.filterOptions, db.propertyOptions, db.properties, entry, fid)
    ensures old(LinkedColumn(db.filterOptions, db.propertyOptions, db.properties, entry, fid)) ==>
      db.filterOptions == old(db.filterOptions) && db.propertyOptions == old(db.propertyOptions) && db.nextId == old(db.nextId)
  {
    var props := db.properties;
    var bound := db.nextId;
    var ids := Scan(props, bound);
    ghost var options0, links0 := db.filterOptions, db.propertyOptions;
    ghost var wasLinked := LinkedColumn(options0, links0, props, entry, fid);
    var j := 0;
    while j < |ids|
      invariant 0 <= j <= |ids|
      invariant db.Valid() && db.properties == props
      invariant Extends(options0, db.filterOptions) && links0 <= db.propertyOptions
      invariant ColumnDerived(options0, db.filterOptions, links0, db.propertyOptions, props, entry, fid)
      invariant PrefixDone(db.filterOptions, db.propertyOptions, props, entry, fid, ids, j)
      invariant wasLinked ==> db.filterOptions == options0 && db.propertyOptions == links0 && db.nextId == old(db.nextId)
    {
      assert ids[j] in props;
      var labelled := TagAt(db, entry, fid, props, ids, j, options0, links0);
      if !labelled {
        return false;
      }
      j := j + 1;
    }
    AllListed(db.filterOptions, db.propertyOptions, props, entry, fid, ids, bound);
    done := true;
  }

  /**
   * One step of `TagColumn`: tags the `j`-th property of `ids` and keeps the
   * loop's account of what has been created since `options0`/`links0`.
   */
  method TagAt(db: Database, entry: Property -> Option<Entry>, fid: Id, props: map<Id, Property>, ids: seq<Id>, j: nat,
               ghost options0: map<Id, FilterOption>, ghost links0: set<Link>) returns (labelled: bool)
    requires db.Valid() && db.properties == props && j < |ids| && ids[j] in props
    requires Extends(options0, db.filterOptions) && links0 <= db.propertyOptions
    requires ColumnDerived(options0, db.filterOptions, links0, db.propertyOptions, props, entry, fid)
    requires PrefixDone(db.filterOptions, db.propertyOptions, props, entry, fid, ids, j)
    modifies db`filterOptions, db`propertyOptions, db`nextId
    ensures db.Valid() && db.properties == props
    ensures labelled <==> entry(props[ids[j]]).None? || entry(props[ids[j]]).value.caption.Some?
    ensures Extends(options0, db.filterOptions) && links0 <= db.propertyOptions
    ensures ColumnDerived(options0, db.filterOptions, links0, db.propertyOptions, props, entry, fid)
    ensures labelled ==> PrefixDone(db.filterOptions, db.propertyOptions, props, entry, fid, ids, j + 1)
    ensures LinkedColumn(old(db.filterOptions), old(db.propertyOptions), props, entry, fid) ==>
      db.filterOptions == old(db.filterOptions) && db.propertyOptions == old(db.propertyOptions) && db.nextId == old(db.nextId)
  {
    var p := ids[j];
    var e := entry(props[p]);
    ghost var options1, links1 := db.filterOptions, db.propertyOptions;
    labelled := TagOne(db, fid, p, e);
    DerivedStep(options0, options1, db.filterOptions, links0, links1, db.propertyOptions, props, entry, fid, p);
    if labelled {
      PrefixDoneStep(options1, db.filterOptions, links1, db.propertyOptions, props, entry, fid, ids, j);
    }
  }

  /** A floor number the ordinal helper cannot label: negative with a non-zero last digit. */
  predicate UnlabelledFloor(n: int) {
    n < 0 && (-n) % 10 != 0
  }

  /** Every column is labelled exactly when no property has an unlabelled floor number. */
  lemma LabelledIff(props: map<Id, Property>)
    ensures (forall c: Column :: Labelled(props, EntryFn(c))) <==>
      forall p :: p in props && props[p].floorNumber.Some? ==> !UnlabelledFloor(props[p].floorNumber.value)
  {
    if forall c: Column :: Labelled(props, EntryFn(c)) {
      assert Labelled(props, EntryFn(FloorNumber));
      forall p | p in props && props[p].floorNumber.Some? ensures !UnlabelledFloor(props[p].floorNumber.value) {
        if props[p].floorNumber.value != 0 {
          LabelFails(props[p], FloorNumber);
        }
      }
    } else {
      var c: Column :| !Labelled(props, EntryFn(c));
      var p :| p in props && EntryFn(c)(props[p]).Some? && EntryFn(c)(props[p]).value.caption.None?;
      LabelFails(props[p], c);
    }
  }

  lemma DerivedMono(f1: map<Id, Filter>, f2: map<Id, Filter>, props: map<Id, Property>, o: FilterOption)
    requires Extends(f1, f2) && Derived(f1, props, o)
    ensures Derived(f2, props, o)
  {
    var c :| f1[o.filterId].slug == SlugOf(c) && DerivedOption(props, EntryFn(c), o.filterId, o);
    assert f2[o.filterId] == f1[o.filterId];
  }

  lemma JustifiedMono(f1: map<Id, Filter>, f2: map<Id, Filter>, o1: map<Id, FilterOption>, o2: map<Id, FilterOption>,
                      props: map<Id, Property>, l: Link)
    requires Extends(f1, f2) && Extends(o1, o2) && Justified(f1, o1, props, l)
    ensures Justified(f2, o2, props, l)
  {
    var c :| f1[o1[l.1].filterId].slug == SlugOf(c) && DerivedLink(o1, props, EntryFn(c), o1[l.1].filterId, l);
    assert o2[l.1] == o1[l.1];
    assert f2[o1[l.1].filterId] == f1[o1[l.1].filterId];
  }

  lemma ColumnTaggedMono(f1: map<Id, Filter>, f2: map<Id, Filter>, o1: map<Id, FilterOption>, o2: map<Id, FilterOption>,
                         l1: set<Link>, l2: set<Link>, props: map<Id, Property>, c: Column)
    requires Extends(f1, f2) && Extends(o1, o2) && l1 <= l2 && ColumnTagged(f1, o1, l1, props, c)
    ensures ColumnTagged(f2, o2, l2, props, c)
  {
    var fid :| fid in f1 && f1[fid].slug == SlugOf(c) && LinkedColumn(o1, l1, props, EntryFn(c), fid);
    LinkedMono(o1, o2, l1, l2, props, EntryFn(c), fid);
    assert f2[fid] == f1[fid];
  }

  /** Adding filters, options and links never undoes a complete tagging. */
  lemma FullyTaggedMono(f1: map<Id, Filter>, f2: map<Id, Filter>, o1: map<Id, FilterOption>, o2: map<Id, FilterOption>,
                        l1: set<Link>, l2: set<Link>, props: map<Id, Property>)
    requires Extends(f1, f2) && Extends(o1, o2) && l1 <= l2 && FullyTagged(f1, o1, l1, props)
    ensures FullyTagged(f2, o2, l2, props)
  {
    forall c: Column ensures ColumnTagged(f2, o2, l2, props, c) {
      ColumnTaggedMono(f1, f2, o1, o2, l1, l2, props, c);
    }
  }

  /** Every option created since `options0` is derived, and every link created since `links0` is justified. */
  ghost predicate Provenance(filters: map<Id, Filter>, options0: map<Id, FilterOption>, options: map<Id, FilterOption>,
                             links0: set<Link>, links: set<Link>, props: map<Id, Property>) {
    && (forall o :: o in options && o !in options0 ==> Derived(filters, props, options[o]))
    && (forall l :: l in links && l !in links0 ==> Justified(filters, options, props, l))
  }

  /** Provenance composes across two steps that only add filters, options and links. */
  lemma ProvenanceTrans(f1: map<Id, Filter>, f2: map<Id, Filter>,
                        options0: map<Id, FilterOption>, options1: map<Id, FilterOption>, options2: map<Id, FilterOption>,
                        links0: set<Link>, links1: set<Link>, links2: set<Link>, props: map<Id, Property>)
    requires Extends(f1, f2) && Extends(options1, options2) && links1 <= links2
    requires Provenance(f1, options0, options1, links0, links1, props)
    requires Provenance(f2, options1, options2, links1, links2, props)
    ensures Provenance(f2, options0, options2, links0, links2, props)
  {
    forall o | o in options2 && o !in options0 && o in options1 ensures Derived(f2, props, options2[o]) {
      DerivedMono(f1, f2, props, options1[o]);
    }
    forall l | l in links2 && l !in links0 && l in links1 ensures Justified(f2, options2, props, l) {
      JustifiedMono(f1, f2, options1, options2, props, l);
    }
  }

  /** Every filter created since `filters0` is the filter of some mapped column. */
  ghost predicate ColumnFilters(filters0: map<Id, Filter>, filters: map<Id, Filter>) {
    forall f :: f in filters && f !in filters0 ==> exists c :: filters[f] == Filter(DisplayName(c), SlugOf(c), "select")
  }

  lemma ColumnFiltersStep(f0: map<Id, Filter>, f1: map<Id, Filter>, f2: map<Id, Filter>, c: Column)
    requires Extends(f1, f2) && ColumnFilters(f0, f1)
    requires forall f :: f in f2 && f !in f1 ==> f2[f] == Filter(DisplayName(c), SlugOf(c), "select")
    ensures ColumnFilters(f0, f2)
  {
    forall f | f in f2 && f !in f0 ensures exists c' :: f2[f] == Filter(DisplayName(c'), SlugOf(c'), "select") {
      if f in f1 {
        var c' :| f1[f] == Filter(DisplayName(c'), SlugOf(c'), "select");
        assert f2[f] == f1[f];
      } else {
        assert f2[f] == Filter(DisplayName(c), SlugOf(c), "select");
      }
    }
  }

  /** The first `i` mapped columns are labelled and tagged. */
  ghost predicate TaggedUpTo(filters: map<Id, Filter>, options: map<Id, FilterOption>, links: set<Link>,
                             props: map<Id, Property>, i: nat) {
    i <= |Mappings| &&
    forall k :: 0 <= k < i ==> Labelled(props, EntryFn(Mappings[k])) && ColumnTagged(filters, options, links, props, Mappings[k])
  }

  lemma TaggedUpToStep(f1: map<Id, Filter>, f2: map<Id, Filter>, o1: map<Id, FilterOption>, o2: map<Id, FilterOption>,
                       l1: set<Link>, l2: set<Link>, props: map<Id, Property>, i: nat)
    requires Extends(f1, f2) && Extends(o1, o2) && l1 <= l2 && TaggedUpTo(f1, o1, l1, props, i) && i < |Mappings|
    requires Labelled(props, EntryFn(Mappings[i])) && ColumnTagged(f2, o2, l2, props, Mappings[i])
    ensures TaggedUpTo(f2, o2, l2, props, i + 1)
  {
    forall k | 0 <= k < i ensures ColumnTagged(f2, o2, l2, props, Mappings[k]) {
      ColumnTaggedMono(f1, f2, o1, o2, l1, l2, props, Mappings[k]);
    }
  }

  /** Having tagged every mapped column is being fully tagged. */
  lemma TaggedAll(filters: map<Id, Filter>, options: map<Id, FilterOption>, links: set<Link>, props: map<Id, Property>)
    requires TaggedUpTo(filters, options, links, props, |Mappings|)
    ensures (forall c: Column :: Labelled(props, EntryFn(c))) && FullyTagged(filters, options, links, props)
  {
    forall c: Column ensures Labelled(props, EntryFn(c)) && ColumnTagged(filters, options, links, props, c) {
      MappingsCoverColumns(c);
    }
  }

  /**
   * One pass of the seeder's outer loop: finds or creates the filter of column
   * `c` and tags the properties under it. Returns false when a value of the
   * column has no label.
   */
  method SeedColumn(db: Database, c: Column) returns (done: bool)
    requires db.Valid()
    modifies db`filters, db`filterOptions, db`propertyOptions, db`nextId
    ensures db.Valid()
    ensures Extends(old(db.filters), db.filters) && Extends(old(db.filterOptions), db.filterOptions)
    ensures old(db.propertyOptions) <= db.propertyOptions
    ensures forall f :: f in db.filters && f !in old(db.filters) ==> db.filters[f] == Filter(DisplayName(c), SlugOf(c), "select")
    ensures Provenance(db.filters, old(db.filterOptions), db.filterOptions, old(db.propertyOptions), db.propertyOptions, db.properties)
    ensures done <==> Labelled(db.properties, EntryFn(c))
    ensures done ==> ColumnTagged(db.filters, db.filterOptions, db.propertyOptions, db.properties, c)
    ensures old(ColumnTagged(db.filters, db.filterOptions, db.propertyOptions, db.properties, c)) ==>
      db.filters == old(db.filters) && db.filterOptions == old(db.filterOptions)
      && db.propertyOptions == old(db.propertyOptions) && db.nextId == old(db.nextId)
  {
    ghost var filters0, options0, links0 := db.filters, db.filterOptions, db.propertyOptions;
    ghost var wasTagged := ColumnTagged(filters0, options0, links0, db.properties, c);
    var fid := FirstOrCreateFilter(db, SlugOf(c), DisplayName(c), "select");
    if wasTagged {
      var g :| g in filters0 && filters0[g].slug == SlugOf(c) && LinkedColumn(options0, links0, db.properties, EntryFn(c), g);
      assert g == fid;
    }
    ghost var filters1 := db.filters;
    assert Extends(filters0, filters1);
    done := TagColumn(db, EntryFn(c), fid);
    if done {
      assert LinkedColumn(db.filterOptions, db.propertyOptions, db.properties, EntryFn(c), fid);
      assert fid in db.filters && db.filters[fid].slug == SlugOf(c);
    }
    ColumnProvenance(db.filters, options0, db.filterOptions, links0, db.propertyOptions, db.properties, c, fid);
  }

  /** What one column's tagging derived from it is derived from some column of the filter it went under. */
  lemma ColumnProvenance(filters: map<Id, Filter>, options0: map<Id, FilterOption>, options: map<Id, FilterOption>,
                         links0: set<Link>, links: set<Link>, props: map<Id, Property>, c: Column, fid: Id)
    requires fid in filters && filters[fid].slug == SlugOf(c)
    requires ColumnDerived(options0, options, links0, links, props, EntryFn(c), fid)
    ensures Provenance(filters, options0, options, links0, links, props)
  {
    forall o | o in options && o !in options0 ensures Derived(filters, props, options[o]) {
      assert DerivedOption(props, EntryFn(c), fid, options[o]);
    }
    forall l | l in links && l !in links0 ensures Justified(filters, options, props, l) {
      assert DerivedLink(options, props, EntryFn(c), fid, l);
    }
  }

  /**
   * The seeder's `run`: seeds each mapped column in turn. It returns false
   * when a property's floor number has no ordinal; the run then stops
   * part-way, with what it wrote so far kept.
   */
  method Run(db: Database) returns (ok: bool)
    requires db.Valid()
    modifies db`filters, db`filterOptions, db`propertyOptions, db`nextId
    ensures db.Valid()
    ensures Extends(old(db.filters), db.filters) && Extends(old(db.filterOptions), db.filterOptions)
    ensures old(db.propertyOptions) <= db.propertyOptions
    ensures ColumnFilters(old(db.filters), db.filters)
    ensures Provenance(db.filters, old(db.filterOptions), db.filterOptions, old(db.propertyOptions), db.propertyOptions, db.properties)
    ensures ok <==> forall c: Column :: Labelled(db.properties, EntryFn(c))
    ensures ok ==> FullyTagged(db.filters, db.filterOptions, db.propertyOptions, db.properties)
    ensures old(FullyTagged(db.filters, db.filterOptions, db.propertyOptions, db.properties)) ==>
      db.filters == old(db.filters) && db.filterOptions == old(db.filterOptions)
      && db.propertyOptions == old(db.propertyOptions) && db.nextId == old(db.nextId)
  {
    ghost var filters0, options0, links0 := db.filters, db.filterOptions, db.propertyOptions;
    ghost var wasTagged := FullyTagged(filters0, options0, links0, db.properties);
    var i := 0;
    while i < |Mappings|
      invariant 0 <= i <= |Mappings|
      invariant db.Valid()
      invariant Extends(filters0, db.filters) && Extends(options0, db.filterOptions) && links0 <= db.propertyOptions
      invariant ColumnFilters(filters0, db.filters)
      invariant Provenance(db.filters, options0, db.filterOptions, links0, db.propertyOptions, db.properties)
      invariant TaggedUpTo(db.filters, db.filterOptions, db.propertyOptions, db.properties, i)
      invariant wasTagged ==>
        db.filters == filters0 && db.filterOptions == options0 && db.propertyOptions == links0 && db.nextId == old(db.nextId)
    {
      var c := Mappings[i];
      ghost var filters1, options1, links1 := db.filters, db.filterOptions, db.propertyOptions;
      if wasTagged {
        assert ColumnTagged(filters0, options0, links0, db.properties, c);
      }
      var done := SeedColumn(db, c);
      ColumnFiltersStep(filters0, filters1, db.filters, c);
      ProvenanceTrans(filters1, db.filters, options0, options1, db.filterOptions, links0, links1, db.propertyOptions,
                      db.properties);
      if !done {
        ok := false;
        return;
      }
      TaggedUpToStep(filters1, db.filters, options1, db.filterOptions, links1, db.propertyOptions, db.properties, i);
      i := i + 1;
    }
    ok := true;
    TaggedAll(db.filters, db.filterOptions, db.propertyOptions, db.properties);
  }
}
