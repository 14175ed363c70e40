/**
 * The request inputs the validators and controllers read, and the Laravel
 * validation rules the core uses, stated as predicates on one value.
 *
 * Laravel runs an implicit rule (`required`) on every key; a non-implicit
 * rule is skipped when the key is absent, when its value is a blank string,
 * and, under `nullable`, when its value is null. `Checked` says when the
 * non-implicit rules of a key run.
 */
module Validation {
  import opened Wrappers
  import opened Text

  /** An uploaded file as the validator sees it: the extension guessed from its contents and its size in kilobytes. */
  datatype Upload = Upload(extension: string, sizeKb: int)

  /** One decoded input value (JSON or form data). */
  datatype Value = Null | Bool(b: bool) | Int(n: int) | Str(s: string) | List(items: seq<Value>) | File(file: Upload)

  /** The request body: a missing key is absent from the map. */
  type Request = map<string, Value>

  /** `$request->input($key)`: an absent key reads as null. */
  function Input(req: Request, key: string): (v: Value)
    ensures key !in req ==> v == Null
    ensures key in req ==> v == req[key]
  {
    if key in req then req[key] else Null
  }

  /** A string of nothing but blanks, which `required` treats as missing. */
  predicate BlankText(v: Value) {
    v.Str? && Trim(v.s) == ""
  }

  /** The `required` rule: not null, not a blank string, not an empty list. */
  predicate Filled(v: Value) {
    match v
    case Null => false
    case Str(s) => Trim(s) != ""
    case List(items) => items != []
    case _ => true
  }

  /** The non-implicit rules of `key` run: it is present, not a blank string, and not null when `nullable` applies. */
  predicate Checked(req: Request, key: string, nullable: bool) {
    key in req && !BlankText(req[key]) && !(nullable && req[key].Null?)
  }

  /** A `required` key always has its other rules run. */
  lemma FilledIsChecked(req: Request, key: string, nullable: bool)
    requires Filled(Input(req, key))
    ensures Checked(req, key, nullable)
  {
  }

  /** The text PHP makes of a scalar with `(string)`; lists and files have none. */
  function AsText(v: Value): (r: Option<string>)
    ensures v.Str? ==> r == Some(v.s)
    ensures v.Int? ==> r == Some(IntToString(v.n))
    ensures v.List? || v.File? ==> r.None?
  {
    match v
    case Null => Some("")
    case Bool(b) => Some(if b then "1" else "")
    case Int(n) => Some(IntToString(n))
    case Str(s) => Some(s)
    case _ => None
  }

  /**
   * `exists:<table>,id`. A scalar must name (`KeyOf`) the key of a row. A list
   * passes when the rows `whereIn` finds are at least as many as its distinct
   * elements (`array_unique`, which compares their text): see `ListExists`.
   */
  predicate Exists(v: Value, table: set<nat>) {
    if v.List? then ListExists(v.items, table) else KeyOf(v).Some? && KeyOf(v).value in table
  }

  /**
   * `exists` on a list: every element names a row, and elements with
   * different text name different rows (one text names at most one row, so
   * the rows found reach the count of distinct texts exactly then). The
   * empty list passes, since it expects no row.
   */
  predicate ListExists(items: seq<Value>, table: set<nat>) {
    && (forall i :: 0 <= i < |items| ==> KeyOf(items[i]).Some? && KeyOf(items[i]).value in table)
    && (forall i, j :: 0 <= i < |items| && 0 <= j < |items| && KeyOf(items[i]) == KeyOf(items[j])
          ==> AsText(items[i]) == AsText(items[j]))
  }

  /** A list naming existing rows by their canonical keys passes `exists`, and an element naming no row fails it. */
  lemma ListExistsCases(items: seq<Value>, table: set<nat>, i: nat)
    ensures (forall j :: 0 <= j < |items| ==> items[j].Int? && items[j].n >= 0 && items[j].n in table)
            ==> ListExists(items, table)
    ensures i < |items| && (KeyOf(items[i]).None? || KeyOf(items[i]).value !in table) ==> !ListExists(items, table)
  {
  }

  /** Two texts naming one row, such as "1" and "01", fail `exists` together although each alone passes. */
  lemma DistinctTextsNameDistinctRows(table: set<nat>)
    requires 1 in table
    ensures Exists(Str("1"), table) && Exists(Str("01"), table)
    ensures !Exists(List([Str("1"), Str("01")]), table)
    ensures Exists(List([Int(1), Str("1")]), table)
  {
    assert DigitString("01") && ParseNat("01") == 1 by {
      assert "01"[..1] == "0";
    }
    var l := [Str("1"), Str("01")];
    assert KeyOf(l[0]) == KeyOf(l[1]) && AsText(l[0]) != AsText(l[1]);
    var m := [Int(1), Str("1")];
    assert IntToString(1) == "1";
    forall i, j | 0 <= i < 2 && 0 <= j < 2 ensures AsText(m[i]) == AsText(m[j]) {
    }
  }

  /** `.*` with `exists`: every element of the list names a row of the table. */
  predicate AllExist(items: seq<Value>, table: set<nat>) {
    forall i :: 0 <= i < |items| ==> Exists(items[i], table)
  }

  /**
   * The ids a list of row keys names (duplicates collapse). `sync` given these
   * values links exactly these ids when each id is sent as its own decimal text;
   * `PivotSync.SyncValues` models what it does with other spellings.
   */
  function IdSet(items: seq<Value>): (r: set<nat>)
    requires forall i :: 0 <= i < |items| ==> KeyOf(items[i]).Some?
    ensures forall x :: x in r <==> exists i :: 0 <= i < |items| && KeyOf(items[i]) == Some(x)
  {
    set i | 0 <= i < |items| :: KeyOf(items[i]).value
  }

  /** Every id of a list whose elements name existing rows is a key of the table. */
  lemma IdSetOfExisting(items: seq<Value>, table: set<nat>)
    requires forall i :: 0 <= i < |items| ==> KeyOf(items[i]).Some? && KeyOf(items[i]).value in table
    ensures IdSet(items) <= table
    ensures items != [] ==> KeyOf(items[0]).value in IdSet(items)
  {
  }

  /** `digits:<len>`: the value's text is exactly `len` decimal digits. */
  predicate Digits(v: Value, len: nat) {
    var t := AsText(v);
    t.Some? && |t.value| == len && forall i :: 0 <= i < |t.value| ==> IsDigit(t.value[i])
  }

  /** `confirmed`: `<key>_confirmation` holds an identical value (PHP `===`; an absent one reads as null). */
  predicate Confirmed(req: Request, key: string) {
    key in req && Input(req, key + "_confirmation") == req[key]
  }

  /** `mimes:<exts>|max:<kb>` on one upload: a file of an accepted type and size. */
  predicate FileOk(v: Value, exts: set<string>, maxKb: int) {
    v.File? && v.file.extension in exts && v.file.sizeKb <= maxKb
  }
  /** A non-empty string of decimal digits. */
  predicate DigitString(s: string) {
    s != [] && forall i :: 0 <= i < |s| ==> IsDigit(s[i])
  }

  /**
   * The row key a submitted value names when it is compared with an integer
   * primary key (`findOrFail`, `where('id', ..)`): a non-negative integer, or
   * a string of decimal digits. Any other value names no row.
   */
  function KeyOf(v: Value): (k: Option<nat>)
    ensures v.Int? ==> (k.Some? <==> v.n >= 0) && (k.Some? ==> k.value == v.n)
    ensures v.Str? ==> (k.Some? <==> DigitString(v.s))
    ensures !v.Int? && !v.Str? ==> k.None?
  {
    match v
    case Int(n) => if n >= 0 then Some(n as nat) else None
    case Str(s) => if DigitString(s) then Some(ParseNat(s)) else None
    case _ => None
  }

  /** A key sent as form text names the row it was rendered from. */
  lemma KeyOfRenderedKey(n: nat)
    ensures KeyOf(Str(NatToString(n))) == Some(n)
    ensures KeyOf(Int(n)) == Some(n)
  {
    ParseNatToString(n);
  }

  /** An optional leading sign, as a factor, and the text after it. */
  function SplitSign(t: string): (r: (int, string))
    ensures r.0 == 1 || r.0 == -1
    ensures r.1 == t || (t != [] && r.1 == t[1..] && (t[0] == '-' || t[0] == '+'))
    ensures r.0 == -1 <==> t != [] && t[0] == '-'
  {
    if t != [] && t[0] == '-' then (-1, t[1..])
    else if t != [] && t[0] == '+' then (1, t[1..])
    else (1, t)
  }

  /** Decimal digits with no leading zero, "0" itself aside. */
  predicate CanonicalDigits(s: string) {
    DigitString(s) && (s[0] == '0' ==> |s| == 1)
  }

  /**
   * `integer` (PHP `filter_var($v, FILTER_VALIDATE_INT)`) and the number it
   * reads: an integer; `true`, which PHP turns into "1"; or a string which,
   * trimmed of surrounding blanks, is an optional sign and decimal digits
   * without a leading zero. None when the rule fails.
   */
  function IntegerOf(v: Value): (r: Option<int>)
    ensures v.Int? ==> r == Some(v.n)
    ensures v.Bool? ==> r == (if v.b then Some(1) else None)
    ensures v.Str? ==> (r.Some? <==> CanonicalDigits(SplitSign(Trim(v.s)).1))
    ensures !v.Int? && !v.Bool? && !v.Str? ==> r.None?
  {
    match v
    case Int(n) => Some(n)
    case Bool(b) => if b then Some(1) else None
    case Str(s) =>
      var (sign, digits) := SplitSign(Trim(s));
      if CanonicalDigits(digits) then Some(sign * ParseNat(digits)) else None
    case _ => None
  }

  /**
   * `numeric` (PHP `is_numeric`), for whole numbers: an integer, or a string
   * which, trimmed of surrounding blanks, is an optional sign and decimal
   * digits (leading zeros allowed).
   */
  predicate Numeric(v: Value) {
    v.Int? || (v.Str? && DigitString(SplitSign(Trim(v.s)).1))
  }

  /** The number a numeric value stands for. */
  function NumberOf(v: Value): (n: int)
    requires Numeric(v)
    ensures v.Int? ==> n == v.n
    ensures v.Str? ==> (n < 0 ==> Trim(v.s)[0] == '-')
  {
    if v.Int? then v.n
    else
      var (sign, digits) := SplitSign(Trim(v.s));
      sign * ParseNat(digits)
  }

  /** A rendered number has no blanks to trim, and its sign splits off from the digits of its magnitude. */
  lemma RenderedSplit(n: int)
    ensures Trim(IntToString(n)) == IntToString(n)
    ensures SplitSign(IntToString(n)) == (if n < 0 then -1 else 1, NatToString(if n < 0 then -n else n))
  {
    var m: nat := if n < 0 then -n else n;
    var d, t := NatToString(m), IntToString(n);
    assert t == (if n < 0 then "-" + d else d);
    assert t[|t| - 1] == d[|d| - 1];
    TrimFixesTrimmed(t);
  }

  /** A number rendered as PHP renders it passes both `integer` and `numeric` and reads back as itself. */
  lemma RenderedNumber(n: int)
    ensures IntegerOf(Str(IntToString(n))) == Some(n)
    ensures Numeric(Str(IntToString(n))) && NumberOf(Str(IntToString(n))) == n
  {
    var m: nat := if n < 0 then -n else n;
    RenderedSplit(n);
    ParseNatToString(m);
    assert CanonicalDigits(NatToString(m));
  }

  /** Every canonical integer string is numeric too, for the same number. */
  lemma IntegerIsNumeric(v: Value)
    requires v.Str? && IntegerOf(v).Some?
    ensures Numeric(v) && NumberOf(v) == IntegerOf(v).value
  {
  }

  /**
   * `$request->input(key, [])` handed to `sync`: an absent key is the empty
   * list; a list is read element by element with `KeyOf`; None when some
   * element, or the value itself, names no row.
   */
  function SubmittedIds(req: Request, key: string): (r: Option<seq<nat>>)
    ensures key !in req ==> r == Some([])
    ensures r.Some? && key in req ==> req[key].List? && |r.value| == |req[key].items|
    ensures r.Some? && key in req ==> forall i :: 0 <= i < |r.value| ==> KeyOf(req[key].items[i]) == Some(r.value[i])
    ensures key in req && req[key].List? && (forall i :: 0 <= i < |req[key].items| ==> KeyOf(req[key].items[i]).Some?)
            ==> r.Some?
  {
    if key !in req then Some([])
    else if req[key].List? then Keys(req[key].items)
    else None
  }

  /** The keys of a list of values, or None when one names no row. */
  function Keys(items: seq<Value>): (r: Option<seq<nat>>)
    ensures r.Some? <==> forall i :: 0 <= i < |items| ==> KeyOf(items[i]).Some?
    ensures r.Some? ==> |r.value| == |items| && forall i :: 0 <= i < |items| ==> KeyOf(items[i]) == Some(r.value[i])
  {
    if items == [] then Some([])
    else match (KeyOf(items[0]), Keys(items[1..]))
      case (Some(k), Some(ks)) => Some([k] + ks)
      case _ => None
  }
}
