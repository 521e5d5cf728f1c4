/** Shared vocabulary of the services: identifiers, the response envelope,
    and the in-memory stand-ins for the repository queries (lookup by id,
    substring search, skip/take windows, filters and ordering). */
module Common {

  datatype Option<T> = None | Some(value: T) {
    function GetOr(default: T): T {
      match this
      case Some(v) => v
      case None => default
    }
  }

  /** The envelope `{message, data?, status}`; the HTTP exceptions thrown by
      the services become the error constructors. `ServerError` stands for an
      uncaught runtime error (HTTP 500). */
  datatype Response<T> =
    | Ok(status: nat, message: string, data: T)
    | BadRequest(message: string)
    | NotFound(message: string)
    | ServerError(message: string)

  type Id = string

  function Min(a: int, b: int): int { if a <= b then a else b }

  // ---------------------------------------------------------------------
  // Identifiers

  predicate IsHexDigit(c: char) {
    ('0' <= c <= '9') || ('a' <= c <= 'f') || ('A' <= c <= 'F')
  }

  /** Positions of the four hyphens in the 8-4-4-4-12 layout. */
  predicate IsHyphenPosition(i: int) {
    i == 8 || i == 13 || i == 18 || i == 23
  }

  /** The textual UUID layout of section 3 of RFC 4122: 32 hexadecimal digits
      in groups 8-4-4-4-12 separated by hyphens, letters in either case. */
  predicate IsUuid(s: string) {
    |s| == 36 &&
    forall i :: 0 <= i < |s| ==> if IsHyphenPosition(i) then s[i] == '-' else IsHexDigit(s[i])
  }

  // ---------------------------------------------------------------------
  // Tables: sequences of rows keyed by an id

  predicate UniqueKeys<T>(s: seq<T>, key: T -> Id) {
    forall i, j :: 0 <= i < j < |s| ==> key(s[i]) != key(s[j])
  }

  predicate Absent<T>(s: seq<T>, key: T -> Id, id: Id) {
    forall k :: 0 <= k < |s| ==> key(s[k]) != id
  }

  /** `findOne({ where: { id } })`: the position of the first row with that id. */
  function IndexOf<T>(s: seq<T>, key: T -> Id, id: Id): (r: Option<nat>)
    ensures r.None? <==> Absent(s, key, id)
    ensures r.Some? ==> r.value < |s| && key(s[r.value]) == id
    ensures r.Some? ==> Absent(s[..r.value], key, id)
  {
    if s == [] then None
    else if key(s[0]) == id then Some(0)
    else
      match IndexOf(s[1..], key, id)
      case None => None
      case Some(i) =>
        assert s[1..][..i] == s[1..i + 1];
        Some(i + 1)
  }

  /** With unique keys, the row found by IndexOf is the only row with that id. */
  lemma UniqueIndex<T>(s: seq<T>, key: T -> Id, id: Id, k: nat)
    requires UniqueKeys(s, key)
    requires k < |s| && key(s[k]) == id
    ensures IndexOf(s, key, id) == Some(k)
  {
  }

  /** Replacing one row by one with the same id keeps the ids unique. */
  lemma UpdateKeepsUnique<T>(s: seq<T>, key: T -> Id, i: nat, x: T)
    requires UniqueKeys(s, key) && i < |s| && key(x) == key(s[i])
    ensures UniqueKeys(s[i := x], key)
  {
    var t := s[i := x];
    forall a, b | 0 <= a < b < |t| ensures key(t[a]) != key(t[b]) {
      assert key(t[a]) == key(s[a]) && key(t[b]) == key(s[b]);
    }
  }

  /** Appending a row whose id is absent keeps the ids unique. */
  lemma AppendKeepsUnique<T>(s: seq<T>, key: T -> Id, x: T)
    requires UniqueKeys(s, key) && Absent(s, key, key(x))
    ensures UniqueKeys(s + [x], key)
  {
  }

  /** `update(id, values)`: every row with that id is rewritten by `f`, the
      others are kept. */
  function MapWhere<T>(s: seq<T>, key: T -> Id, id: Id, f: T -> T): (r: seq<T>)
    ensures |r| == |s|
    ensures forall k :: 0 <= k < |s| ==> r[k] == if key(s[k]) == id then f(s[k]) else s[k]
  {
    seq(|s|, k requires 0 <= k < |s| => if key(s[k]) == id then f(s[k]) else s[k])
  }

  /** With unique ids, rewriting the one row found by id is the same as the
      update-where over the whole table. */
  lemma UpdateAtIsMapWhere<T>(s: seq<T>, key: T -> Id, i: nat, f: T -> T)
    requires UniqueKeys(s, key) && i < |s|
    ensures s[i := f(s[i])] == MapWhere(s, key, key(s[i]), f)
  {
    var r := MapWhere(s, key, key(s[i]), f);
    forall k | 0 <= k < |s| ensures s[i := f(s[i])][k] == r[k] {
      if k != i {
        assert key(s[k]) != key(s[i]);
      }
    }
  }

  /** An update-where whose id no row holds changes nothing. */
  lemma MapWhereAbsent<T>(s: seq<T>, key: T -> Id, id: Id, f: T -> T)
    requires Absent(s, key, id)
    ensures MapWhere(s, key, id, f) == s
  {
    var r := MapWhere(s, key, id, f);
    assert forall k :: 0 <= k < |s| ==> r[k] == s[k];
  }

  /** An update-where that does not rewrite ids keeps them unique, keeps
      every row's id in place, and leaves every other row as it was. */
  lemma MapWhereKeepsUnique<T>(s: seq<T>, key: T -> Id, id: Id, f: T -> T)
    requires UniqueKeys(s, key)
    requires forall x :: key(f(x)) == key(x)
    ensures var r := MapWhere(s, key, id, f);
            UniqueKeys(r, key) &&
            (forall k :: 0 <= k < |s| ==> key(r[k]) == key(s[k])) &&
            (forall k :: 0 <= k < |s| && key(s[k]) != id ==> r[k] == s[k])
  {
    var r := MapWhere(s, key, id, f);
    forall k | 0 <= k < |s| ensures key(r[k]) == key(s[k]) {
      if key(s[k]) == id {
        assert r[k] == f(s[k]);
      }
    }
  }

  /** `delete(id)` / `remove(row)`: every row with that id is taken out. */
  function RemoveKey<T>(s: seq<T>, key: T -> Id, id: Id): (r: seq<T>)
    ensures Absent(r, key, id)
    ensures forall k :: 0 <= k < |r| ==> r[k] in s
    ensures forall k :: 0 <= k < |s| && key(s[k]) != id ==> s[k] in r
    ensures |r| <= |s|
    ensures Absent(s, key, id) ==> r == s
  {
    if s == [] then []
    else if key(s[0]) == id then RemoveKey(s[1..], key, id)
    else [s[0]] + RemoveKey(s[1..], key, id)
  }

  /** Taking out a row keeps the remaining ids unique. */
  lemma {:induction false} RemoveKeepsUnique<T>(s: seq<T>, key: T -> Id, id: Id)
    requires UniqueKeys(s, key)
    ensures UniqueKeys(RemoveKey(s, key, id), key)
  {
    if s != [] {
      RemoveKeepsUnique(s[1..], key, id);
    }
  }

  /** With unique ids, removing a present row shortens the table by exactly one. */
  lemma {:induction false} RemovePresentCount<T>(s: seq<T>, key: T -> Id, k: nat)
    requires UniqueKeys(s, key) && k < |s|
    ensures |RemoveKey(s, key, key(s[k]))| == |s| - 1
  {
    var id := key(s[k]);
    if k == 0 {
      assert Absent(s[1..], key, id);
    } else {
      RemovePresentCount(s[1..], key, k - 1);
    }
  }

  // ---------------------------------------------------------------------
  // Searching and listing

  /** `pat` occurs in `text` starting at position `i`. */
  predicate OccursAt(text: string, pat: string, i: int) {
    0 <= i && i + |pat| <= |text| && text[i..i + |pat|] == pat
  }

  /** `Like('%' + pat + '%')` read as plain substring containment. */
  predicate Contains(text: string, pat: string)
    decreases |text|
  {
    |pat| <= |text| && (text[..|pat|] == pat || Contains(text[1..], pat))
  }

  lemma {:induction false} ContainsIffOccurs(text: string, pat: string)
    ensures Contains(text, pat) <==> exists i :: OccursAt(text, pat, i)
  {
    if |pat| <= |text| {
      if text[..|pat|] == pat {
        assert OccursAt(text, pat, 0);
      } else {
        ContainsIffOccurs(text[1..], pat);
        if Contains(text[1..], pat) {
          var i :| OccursAt(text[1..], pat, i);
          assert text[1..][i..i + |pat|] == text[i + 1..i + 1 + |pat|];
          assert OccursAt(text, pat, i + 1);
        } else {
          forall i | 1 <= i && OccursAt(text, pat, i) ensures OccursAt(text[1..], pat, i - 1) {
            assert text[1..][i - 1..i - 1 + |pat|] == text[i..i + |pat|];
          }
        }
      }
    }
  }

  /** `skip`/`take` of the repository: at most `take` rows starting at `skip`. */
  function Window<T>(s: seq<T>, skip: nat, take: nat): (r: seq<T>)
    ensures |r| == if skip >= |s| then 0 else Min(take, |s| - skip)
    ensures forall k :: 0 <= k < |r| ==> r[k] == s[skip + k]
  {
    if skip >= |s| then [] else s[skip..skip + Min(take, |s| - skip)]
  }

  /** The rows satisfying `p`, in table order. */
  function Filter<T>(s: seq<T>, p: T -> bool): (r: seq<T>)
    ensures |r| <= |s|
    ensures forall k :: 0 <= k < |r| ==> r[k] in s && p(r[k])
    ensures forall k :: 0 <= k < |s| && p(s[k]) ==> s[k] in r
    ensures multiset(r) <= multiset(s)
  {
    if s == [] then []
    else
      assert s == [s[0]] + s[1..];
      if p(s[0]) then [s[0]] + Filter(s[1..], p)
      else Filter(s[1..], p)
  }

  /** Filtering distributes over concatenation. */
  lemma {:induction false} FilterConcat<T>(a: seq<T>, b: seq<T>, p: T -> bool)
    ensures Filter(a + b, p) == Filter(a, p) + Filter(b, p)
  {
    if a == [] {
      assert a + b == b;
    } else {
      assert (a + b)[1..] == a[1..] + b;
      FilterConcat(a[1..], b, p);
    }
  }

  /** Filtering a table is filtering all but its last row, then keeping that
      row if it passes. */
  lemma FilterSnoc<T>(s: seq<T>, p: T -> bool)
    requires s != []
    ensures Filter(s, p) == Filter(s[..|s| - 1], p) + (if p(s[|s| - 1]) then [s[|s| - 1]] else [])
  {
    var init, one := s[..|s| - 1], [s[|s| - 1]];
    assert one[1..] == [];
    FilterCons(one, p);
    assert Filter(one, p) == if p(s[|s| - 1]) then one else [];
    FilterConcat(init, one, p);
    assert s == init + one;
  }

  /** A filter every row passes keeps the whole table. */
  lemma {:induction false} FilterAll<T>(s: seq<T>, p: T -> bool)
    requires forall k :: 0 <= k < |s| ==> p(s[k])
    ensures Filter(s, p) == s
  {
    if s != [] {
      FilterAll(s[1..], p);
    }
  }

  /** A filter no row passes is empty. */
  lemma FilterNone<T>(s: seq<T>, p: T -> bool)
    requires forall k :: 0 <= k < |s| ==> !p(s[k])
    ensures Filter(s, p) == []
  {
    var r := Filter(s, p);
    if r != [] {
      var k :| 0 <= k < |s| && s[k] == r[0];
    }
  }

  /** Two complementary filters share the rows out between them: their
      lengths add up to the table's. */
  lemma {:induction false} FilterSplitCount<T>(s: seq<T>, p: T -> bool, q: T -> bool)
    requires forall k :: 0 <= k < |s| ==> (q(s[k]) <==> !p(s[k]))
    ensures |Filter(s, p)| + |Filter(s, q)| == |s|
  {
    if s != [] {
      var t := s[1..];
      assert forall k :: 0 <= k < |t| ==> t[k] == s[k + 1];
      FilterSplitCount(t, p, q);
    }
  }

  lemma FilterCons<T>(s: seq<T>, p: T -> bool)
    requires s != []
    ensures Filter(s, p) == if p(s[0]) then [s[0]] + Filter(s[1..], p) else Filter(s[1..], p)
  {
  }

  /** One step of `FilterSplitMultiset`: the head row goes to exactly one of
      the two filters. */
  lemma FilterSplitStep<T>(s: seq<T>, p: T -> bool, q: T -> bool)
    requires s != [] && (q(s[0]) <==> !p(s[0]))
    ensures multiset(Filter(s, p)) + multiset(Filter(s, q)) ==
            multiset{s[0]} + multiset(Filter(s[1..], p)) + multiset(Filter(s[1..], q))
  {
    FilterCons(s, p);
    FilterCons(s, q);
    var x, fp, fq := s[0], Filter(s[1..], p), Filter(s[1..], q);
    if p(x) {
      assert multiset([x] + fp) == multiset{x} + multiset(fp);
    } else {
      assert multiset([x] + fq) == multiset{x} + multiset(fq);
    }
  }

  lemma MultisetCons<T>(s: seq<T>)
    requires s != []
    ensures multiset(s) == multiset{s[0]} + multiset(s[1..])
  {
    assert s == [s[0]] + s[1..];
  }

  /** Two complementary filters share the rows out between them: together
      they hold every row exactly as often as the table does. */
  lemma {:induction false} FilterSplitMultiset<T>(s: seq<T>, p: T -> bool, q: T -> bool)
    requires forall k :: 0 <= k < |s| ==> (q(s[k]) <==> !p(s[k]))
    ensures multiset(Filter(s, p)) + multiset(Filter(s, q)) == multiset(s)
  {
    if s != [] {
      var t := s[1..];
      assert forall k :: 0 <= k < |t| ==> t[k] == s[k + 1];
      FilterSplitMultiset(t, p, q);
      FilterSplitStep(s, p, q);
      MultisetCons(s);
    }
  }

  /** Filtering by `q` after a weaker filter `p` is filtering by `q` alone. */
  lemma {:induction false} FilterFilter<T>(s: seq<T>, p: T -> bool, q: T -> bool)
    requires forall k :: 0 <= k < |s| && q(s[k]) ==> p(s[k])
    ensures Filter(Filter(s, p), q) == Filter(s, q)
  {
    if s != [] {
      FilterFilter(s[1..], p, q);
      if p(s[0]) {
        var rest := Filter(s[1..], p);
        assert ([s[0]] + rest)[1..] == rest;
      }
    }
  }

  // ---------------------------------------------------------------------
  // `order: { createdAt: 'DESC' }`

  predicate SortedDesc<T>(s: seq<T>, key: T -> int) {
    forall i, j :: 0 <= i < j < |s| ==> key(s[i]) >= key(s[j])
  }

  function InsertDesc<T>(x: T, s: seq<T>, key: T -> int): (r: seq<T>)
    requires SortedDesc(s, key)
    ensures SortedDesc(r, key)
    ensures multiset(r) == multiset(s) + multiset{x}
  {
    if s == [] || key(x) >= key(s[0]) then [x] + s
    else
      var t := InsertDesc(x, s[1..], key);
      AtMostHead(x, s, t, key);
      assert s == [s[0]] + s[1..];
      [s[0]] + t
  }

  /** Whatever holds the rows after the head of a sorted table, plus one row
      whose key is below the head's, has no key above the head's. */
  lemma AtMostHead<T>(x: T, s: seq<T>, t: seq<T>, key: T -> int)
    requires s != [] && SortedDesc(s, key) && key(x) < key(s[0])
    requires multiset(t) == multiset(s[1..]) + multiset{x}
    ensures forall k :: 0 <= k < |t| ==> key(t[k]) <= key(s[0])
  {
    forall k | 0 <= k < |t| ensures key(t[k]) <= key(s[0]) {
      assert t[k] in multiset(t);
      if t[k] != x {
        assert t[k] in multiset(s[1..]);
        var j :| 0 <= j < |s[1..]| && s[1..][j] == t[k];
        assert s[j + 1] == t[k];
      }
    }
  }

  /** A stable sort, largest key first. */
  function SortDesc<T>(s: seq<T>, key: T -> int): (r: seq<T>)
    ensures SortedDesc(r, key)
    ensures multiset(r) == multiset(s)
  {
    if s == [] then []
    else
      assert s == [s[0]] + s[1..];
      InsertDesc(s[0], SortDesc(s[1..], key), key)
  }

  /** `find({ where: p, order: { createdAt: 'DESC' } })`: the rows that
      satisfy `p`, a permutation of them, newest first. */
  function NewestFirst<T>(s: seq<T>, p: T -> bool, key: T -> int): (r: seq<T>)
    ensures SortedDesc(r, key)
    ensures multiset(r) == multiset(Filter(s, p))
    ensures forall k :: 0 <= k < |r| ==> r[k] in s && p(r[k])
    ensures forall k :: 0 <= k < |s| && p(s[k]) ==> s[k] in r
    ensures r == [] <==> forall k :: 0 <= k < |s| ==> !p(s[k])
  {
    var f := Filter(s, p);
    var r := SortDesc(f, key);
    assert forall k :: 0 <= k < |r| ==> r[k] in f by {
      forall k | 0 <= k < |r| ensures r[k] in f {
        assert r[k] in multiset(r);
      }
    }
    assert forall k :: 0 <= k < |f| ==> f[k] in r by {
      forall k | 0 <= k < |f| ensures f[k] in r {
        assert f[k] in multiset(f);
      }
    }
    r
  }
}
