/**
 * How MySQL in strict mode stores a string in an ENUM column: a string the
 * column's collation finds equal to a member is stored as that member;
 * otherwise decimal digit text naming a position, counted from 1, stores the
 * member at that position; any other string is refused and the write raises.
 */
module EnumColumn {
  import opened Wrappers
  import opened Text
  import opened Collation
  import opened Validation

  /** The first position from `from` on whose member the collation finds equal to `s`. */
  function MatchFrom(members: seq<string>, s: string, from: nat): (r: Option<nat>)
    requires from <= |members|
    ensures r.Some? ==> from <= r.value < |members| && CollationKey(members[r.value]) == CollationKey(s)
    ensures r.Some? ==> forall j :: from <= j < r.value ==> CollationKey(members[j]) != CollationKey(s)
    ensures r.None? ==> forall j :: from <= j < |members| ==> CollationKey(members[j]) != CollationKey(s)
    decreases |members| - from
  {
    if from == |members| then None
    else if CollationKey(members[from]) == CollationKey(s) then Some(from)
    else MatchFrom(members, s, from + 1)
  }

  /** Digit text that names a position of the enum, counted from 1. */
  predicate IndexText(members: seq<string>, s: string) {
    DigitString(s) && 1 <= ParseNat(s) <= |members|
  }

  /** The collation finds `s` equal to some member. */
  predicate Matches(members: seq<string>, s: string) {
    exists j :: 0 <= j < |members| && CollationKey(members[j]) == CollationKey(s)
  }

  /** The member a write of `s` stores, or None when strict mode refuses it. */
  function EnumValue(members: seq<string>, s: string): (r: Option<string>)
    ensures r.Some? ==> r.value in members
    ensures r.None? <==> !Matches(members, s) && !IndexText(members, s)
    ensures Matches(members, s) ==> r.Some? && CollationKey(r.value) == CollationKey(s)
    ensures !Matches(members, s) && IndexText(members, s) ==> r == Some(members[ParseNat(s) - 1])
  {
    match MatchFrom(members, s, 0)
    case Some(i) => Some(members[i])
    case None => if IndexText(members, s) then Some(members[ParseNat(s) - 1]) else None
  }

  /** No two members of the enum collate equal, as MySQL demands of an ENUM definition. */
  predicate Distinct(members: seq<string>) {
    forall i, j :: 0 <= i < j < |members| ==> CollationKey(members[i]) != CollationKey(members[j])
  }

  /** A member written as it is spelt is stored as itself. */
  lemma MemberStoredAsItself(members: seq<string>, i: nat)
    requires Distinct(members) && i < |members|
    ensures EnumValue(members, members[i]) == Some(members[i])
  {
    assert Matches(members, members[i]);
  }

  /** Writing back what was stored stores the same member again. */
  lemma StoredValueStable(members: seq<string>, s: string)
    requires Distinct(members) && EnumValue(members, s).Some?
    ensures EnumValue(members, EnumValue(members, s).value) == EnumValue(members, s)
  {
    var m := EnumValue(members, s).value;
    var i :| 0 <= i < |members| && members[i] == m;
    MemberStoredAsItself(members, i);
  }
}
