/**
 * Eloquent `sync` as it treats the values a request submitted, before any
 * cast. The submitted values become PHP array keys, so decimal text without
 * leading zeros turns into an integer key and any other text stays a string.
 * A current link is detached when no key has the same string form as its id
 * (`array_diff` compares strings). A key is attached when loose `in_array`
 * finds no current id equal to it as a number. The link tables elsewhere in
 * the model are synced by the set of ids the values name (`Schema.Sync` of
 * `Validation.IdSet`); the lemmas here say when the two agree.
 */
module PivotSync {
  import opened Wrappers
  import opened Text
  import opened Validation
  import opened Schema

  /** Some submitted value spells id `x` as an array key: the integer `x`, or exactly its decimal text. */
  predicate Spells(items: seq<Value>, x: Id) {
    exists i :: 0 <= i < |items| && AsText(items[i]) == Some(NatToString(x))
  }

  /** A value that spells the id it names: an integer, or decimal text without leading zeros. */
  predicate Canonical(v: Value) {
    KeyOf(v).Some? && AsText(v) == Some(NatToString(KeyOf(v).value))
  }

  /**
   * `sync($items)` for `owner`, every value naming a row: the owner's links
   * that some value spells are kept, those no value spells are removed, and
   * every named id not yet linked is added; other owners keep their links.
   */
  function SyncValues(links: set<Link>, owner: Id, items: seq<Value>): (r: set<Link>)
    requires forall i :: 0 <= i < |items| ==> KeyOf(items[i]).Some?
    ensures forall l :: l in r <==>
      || (l in links && l.0 != owner)
      || (l in links && l.0 == owner && Spells(items, l.1))
      || (l !in links && l.0 == owner && l.1 in IdSet(items))
  {
    (set l | l in links && (l.0 != owner || Spells(items, l.1)))
      + (set x | x in IdSet(items) && (owner, x) !in links :: (owner, x))
  }

  /** A value that spells `x` and names a row names `x`. */
  lemma SpelledIsNamed(v: Value, x: Id)
    requires KeyOf(v).Some? && AsText(v) == Some(NatToString(x))
    ensures KeyOf(v) == Some(x)
  {
    var k := KeyOf(v).value;
    if v.Int? {
      assert IntToString(v.n) == NatToString(k);
      ParseNatToString(k);
    }
    ParseNatToString(x);
  }

  /** A key rendered into a form, as integer or as text, spells the id it names. */
  lemma RenderedKeyCanonical(n: Id)
    ensures Canonical(Str(NatToString(n))) && Canonical(Int(n))
  {
    KeyOfRenderedKey(n);
    assert IntToString(n) == NatToString(n);
  }

  /**
   * `sync` links only submitted ids, adds every submitted id not yet linked,
   * and loses a submitted id only when it was linked and no value spells it.
   */
  lemma SyncValuesWithinSubmitted(links: set<Link>, owner: Id, items: seq<Value>, x: Id)
    requires forall i :: 0 <= i < |items| ==> KeyOf(items[i]).Some?
    ensures x in Targets(SyncValues(links, owner, items), owner) ==> x in IdSet(items)
    ensures x in IdSet(items) && x !in Targets(SyncValues(links, owner, items), owner) ==>
      (owner, x) in links && !Spells(items, x)
  {
    var r := SyncValues(links, owner, items);
    if x in Targets(r, owner) && Spells(items, x) {
      var i :| 0 <= i < |items| && AsText(items[i]) == Some(NatToString(x));
      SpelledIsNamed(items[i], x);
    }
    if x in IdSet(items) && x !in Targets(r, owner) {
      assert (owner, x) !in r;
    }
  }

  /**
   * When every value spells the id it names, as the forms send them, `sync`
   * links the owner to exactly the named ids: the set-based `Sync` the model
   * uses elsewhere.
   */
  lemma CanonicalSyncIsSync(links: set<Link>, owner: Id, items: seq<Value>)
    requires forall i :: 0 <= i < |items| ==> KeyOf(items[i]).Some? && Canonical(items[i])
    ensures SyncValues(links, owner, items) == Sync(links, owner, IdSet(items))
  {
    forall l | l in links && l.0 == owner && l.1 in IdSet(items) ensures Spells(items, l.1) {
      var i :| 0 <= i < |items| && KeyOf(items[i]) == Some(l.1);
      assert AsText(items[i]) == Some(NatToString(l.1));
    }
    forall l | l in links && l.0 == owner && Spells(items, l.1) ensures l.1 in IdSet(items) {
      var i :| 0 <= i < |items| && AsText(items[i]) == Some(NatToString(l.1));
      SpelledIsNamed(items[i], l.1);
    }
  }

  /** An owner with no links yet, such as a project just created, is linked to exactly the named ids. */
  lemma FreshOwnerSyncIsSync(links: set<Link>, owner: Id, items: seq<Value>)
    requires forall i :: 0 <= i < |items| ==> KeyOf(items[i]).Some?
    requires forall l :: l in links ==> l.0 != owner
    ensures SyncValues(links, owner, items) == Sync(links, owner, IdSet(items))
  {
  }

  /**
   * Resending a linked id 5 as "05" removes the link: "05" is not the string
   * form of 5, so 5 is detached, and "05" == 5 loosely, so it is not attached
   * again. The set of named ids is still {5}.
   */
  lemma LeadingZeroUnlinks(links: set<Link>, owner: Id)
    requires (owner, 5) in links
    ensures IdSet([Str("05")]) == {5}
    ensures 5 !in Targets(SyncValues(links, owner, [Str("05")]), owner)
    ensures Targets(Sync(links, owner, IdSet([Str("05")])), owner) == {5}
  {
    assert DigitString("05") && ParseNat("05") == 5 by {
      assert "05"[..1] == "0";
    }
    var items := [Str("05")];
    assert KeyOf(items[0]) == Some(5);
    assert NatToString(5) != "05";
    assert !Spells(items, 5);
    SyncTargets(links, owner, {5}, owner);
  }

  /** Sending the id both ways, "5" and "05", keeps the link. */
  lemma BothSpellingsKeep(links: set<Link>, owner: Id)
    requires (owner, 5) in links
    ensures 5 in Targets(SyncValues(links, owner, [Str("5"), Str("05")]), owner)
  {
    assert DigitString("05") && ParseNat("05") == 5 by {
      assert "05"[..1] == "0";
    }
    RenderedKeyCanonical(5);
    var items := [Str("5"), Str("05")];
    assert AsText(items[0]) == Some(NatToString(5));
    assert (owner, 5) in SyncValues(links, owner, items);
  }
}
