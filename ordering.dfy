/**
 * The query pipeline shared by every listing in the core: a table is read in
 * primary-key order, filtered by a row predicate, ordered by a sort key
 * (`latest()` is the key [-created_at]) and cut into pages of ten
 * (`paginate(10)`).
 */
module Ordering {
  import opened Wrappers

  /** A sort key, compared lexicographically; integer columns are one-element keys. */
  type Key = seq<int>

  /** `a` sorts no later than `b`. */
  function LexLe(a: Key, b: Key): bool
    decreases |a|
  {
    |a| == 0 || (|b| > 0 && (a[0] < b[0] || (a[0] == b[0] && LexLe(a[1..], b[1..]))))
  }

  lemma {:induction false} LexTotal(a: Key, b: Key)
    ensures LexLe(a, b) || LexLe(b, a)
    decreases |a|
  {
    if |a| > 0 && |b| > 0 && a[0] == b[0] {
      LexTotal(a[1..], b[1..]);
    }
  }

  lemma {:induction false} LexTrans(a: Key, b: Key, c: Key)
    requires LexLe(a, b) && LexLe(b, c)
    ensures LexLe(a, c)
    decreases |a|
  {
    if |a| > 0 && a[0] == b[0] && b[0] == c[0] {
      LexTrans(a[1..], b[1..], c[1..]);
    }
  }

  /** One-element keys compare as their element. */
  lemma SingleKeyOrder(a: int, b: int)
    ensures LexLe([a], [b]) <==> a <= b
  {
    assert [a][1..] == [];
  }

  /** Two-element keys compare by the first element, then by the second. */
  lemma PairKeyOrder(a1: int, a2: int, b1: int, b2: int)
    ensures LexLe([a1, a2], [b1, b2]) <==> a1 < b1 || (a1 == b1 && a2 <= b2)
  {
    assert [a1, a2][1..] == [a2];
    assert [b1, b2][1..] == [b2];
    SingleKeyOrder(a2, b2);
  }

  /** The key of a string column (names are ordered by character code). */
  function StringKey(s: string): (k: Key)
    ensures |k| == |s| && forall i :: 0 <= i < |s| ==> k[i] == s[i] as int
  {
    if s == [] then [] else [s[0] as int] + StringKey(s[1..])
  }

  ghost predicate SortedBy<K>(s: seq<K>, key: K -> Key) {
    forall i, j :: 0 <= i < j < |s| ==> LexLe(key(s[i]), key(s[j]))
  }

  /** Inserts `x` into an ascending sequence, before the first element whose key is not below `x`'s. */
  function Insert<K>(x: K, s: seq<K>, key: K -> Key): (r: seq<K>)
    requires SortedBy(s, key)
    ensures multiset(r) == multiset(s) + multiset{x}
    ensures SortedBy(r, key)
  {
    if s == [] then [x]
    else if LexLe(key(x), key(s[0])) then
      forall j | 0 < j < |s| ensures LexLe(key(x), key(s[j])) {
        LexTrans(key(x), key(s[0]), key(s[j]));
      }
      [x] + s
    else
      var rest := Insert(x, s[1..], key);
      assert s == [s[0]] + s[1..];
      LexTotal(key(x), key(s[0]));
      forall j | 0 <= j < |rest| ensures LexLe(key(s[0]), key(rest[j])) {
        assert rest[j] in multiset(rest);
        if rest[j] != x {
          assert rest[j] in s[1..];
        }
      }
      [s[0]] + rest
  }

  /** Stable insertion sort into ascending key order: rows with equal keys keep their input order. */
  function SortBy<K>(s: seq<K>, key: K -> Key): (r: seq<K>)
    ensures multiset(r) == multiset(s)
    ensures SortedBy(r, key)
  {
    if s == [] then []
    else
      var sorted := SortBy(s[1..], key);
      assert s == [s[0]] + s[1..];
      Insert(s[0], sorted, key)
  }

  ghost predicate StrictlyAscending(s: seq<nat>) {
    forall i, j :: 0 <= i < j < |s| ==> s[i] < s[j]
  }

  /** The keys of a table below `bound`, in primary-key order. */
  function Scan<T>(m: map<nat, T>, bound: nat): (r: seq<nat>)
    ensures forall i :: 0 <= i < |r| ==> r[i] in m && r[i] < bound
    ensures forall k :: k in m && k < bound ==> k in r
    ensures StrictlyAscending(r)
  {
    if bound == 0 then []
    else
      var r := Scan(m, bound - 1);
      if bound - 1 in m then r + [bound - 1] else r
  }

  /** The rows of `s` that satisfy `p`, in their order (a SQL `WHERE`). */
  function Keep(s: seq<nat>, p: nat -> bool): (r: seq<nat>)
    ensures |r| <= |s|
    ensures forall x :: x in r <==> x in s && p(x)
    ensures forall x :: multiset(r)[x] <= multiset(s)[x]
  {
    if s == [] then []
    else
      var rest := Keep(s[1..], p);
      assert s == [s[0]] + s[1..];
      if p(s[0]) then [s[0]] + rest else rest
  }

  /**
   * `where(..)->first()` without `orderBy`: the lowest key from `lo` up to
   * `bound` whose row satisfies `p`.
   */
  function FirstFrom<T>(m: map<nat, T>, lo: nat, bound: nat, p: nat -> bool): (r: Option<nat>)
    ensures r.Some? ==> r.value in m && lo <= r.value < bound && p(r.value)
    ensures r.Some? ==> forall k :: k in m && lo <= k < r.value ==> !p(k)
    ensures r.None? ==> forall k :: k in m && lo <= k < bound ==> !p(k)
    decreases bound - lo
  {
    if lo >= bound then None
    else if lo in m && p(lo) then Some(lo)
    else FirstFrom(m, lo + 1, bound, p)
  }

  /** Rows per page of every `paginate(10)` in the core. */
  const PageSize: nat := 10

  function Min(a: int, b: int): int {
    if a <= b then a else b
  }

  /** Page `page` (1-based; Laravel reads a page below 1 as page 1). */
  function Page(s: seq<nat>, page: int): (r: seq<nat>)
    ensures |r| <= PageSize
    ensures forall x :: x in r ==> x in s
    ensures page <= 1 ==> r == s[..Min(PageSize, |s|)]
  {
    var p := if page < 1 then 1 else page;
    var lo := Min((p - 1) * PageSize, |s|);
    var hi := Min(lo + PageSize, |s|);
    s[lo..hi]
  }

  /** A page of an ordered list is ordered. */
  lemma PageSorted(s: seq<nat>, page: int, key: nat -> Key)
    requires SortedBy(s, key)
    ensures SortedBy(Page(s, page), key)
  {
    var p := if page < 1 then 1 else page;
    var lo := Min((p - 1) * PageSize, |s|);
    var hi := Min(lo + PageSize, |s|);
    assert Page(s, page) == s[lo..hi];
    SliceSorted(s, lo, hi, key);
  }

  /** A contiguous slice of an ordered list is ordered. */
  lemma SliceSorted<K>(s: seq<K>, lo: nat, hi: nat, key: K -> Key)
    requires SortedBy(s, key) && lo <= hi <= |s|
    ensures SortedBy(s[lo..hi], key)
  {
    var r := s[lo..hi];
    forall i, j | 0 <= i < j < |r| ensures LexLe(key(r[i]), key(r[j])) {
      assert r[i] == s[lo + i];
      assert r[j] == s[lo + j];
      assert 0 <= lo + i < lo + j < |s|;
    }
  }

  /** A whole query: rows of `m` that satisfy `p`, ordered by `key`. */
  function Select<T>(m: map<nat, T>, bound: nat, p: nat -> bool, key: nat -> Key): (r: seq<nat>)
    ensures SortedBy(r, key)
    ensures forall k :: k in r ==> k in m && k < bound && p(k)
    ensures forall k :: k in m && k < bound && p(k) ==> k in r
    ensures forall k :: multiset(r)[k] <= 1
  {
    var scanned := Scan(m, bound);
    var kept := Keep(scanned, p);
    var r := SortBy(kept, key);
    forall k | k in r ensures k in m && k < bound && p(k) {
      assert k in multiset(r);
      assert k in multiset(kept);
    }
    forall k | k in m && k < bound && p(k) ensures k in r {
      assert k in kept;
      assert k in multiset(kept);
      assert k in multiset(r);
    }
    forall k ensures multiset(r)[k] <= 1 {
      NoDuplicates(scanned, k);
    }
    r
  }

  /** A strictly ascending sequence holds each value at most once. */
  lemma {:induction false} NoDuplicates(s: seq<nat>, k: nat)
    requires StrictlyAscending(s)
    ensures multiset(s)[k] <= 1
  {
    if s != [] {
      assert s == [s[0]] + s[1..];
      NoDuplicates(s[1..], k);
      if s[0] == k {
        assert k !in s[1..];
      }
    }
  }
  /** `latest()` on a table: descending creation time. */
  function Latest<T>(m: map<nat, T>, createdAt: T -> int): nat -> Key {
    k => if k in m then [-createdAt(m[k])] else []
  }

  /** On any page of a `latest()` listing, an earlier row is no older than a later one. */
  lemma LatestPageOrder<T>(m: map<nat, T>, createdAt: T -> int, s: seq<nat>, page: int, i: nat, j: nat)
    requires SortedBy(s, Latest(m, createdAt)) && forall x :: x in s ==> x in m
    requires i < j < |Page(s, page)|
    ensures Page(s, page)[i] in m && Page(s, page)[j] in m
    ensures createdAt(m[Page(s, page)[i]]) >= createdAt(m[Page(s, page)[j]])
  {
    PageSorted(s, page, Latest(m, createdAt));
    var r := Page(s, page);
    assert r[i] in r && r[j] in r;
    SingleKeyOrder(-createdAt(m[r[i]]), -createdAt(m[r[j]]));
  }
}
