/**
 * How MongoDB answers `find(criteria).sort(s).skip(k).limit(n)` and
 * `countDocuments(criteria)`, as every repository's `findAndCountAll` uses
 * them: the matching documents, ordered by the sort key in BSON comparison
 * order, with ties in an unspecified order, then paged.
 */
module Ordering {
  import opened QueryUtils

  /** A sort key value in the BSON comparison order of its type. */
  datatype SortValue =
    | Missing                   // null or an absent field
    | Num(n: int)
    | Text(s: string)
    | ObjectIdValue(hex: string)
    | Bool(b: bool)
    | Date(t: int)

  function Rank(v: SortValue): nat {
    match v
    case Missing => 0
    case Num(_) => 1
    case Text(_) => 2
    case ObjectIdValue(_) => 3
    case Bool(_) => 4
    case Date(_) => 5
  }

  /** Lexicographic order of texts by character code. */
  predicate TextLe(a: string, b: string) {
    a == [] || (b != [] && (a[0] < b[0] || (a[0] == b[0] && TextLe(a[1..], b[1..]))))
  }

  lemma {:induction false} TextLeTotal(a: string, b: string)
    ensures TextLe(a, b) || TextLe(b, a)
  {
    if a != [] && b != [] && a[0] == b[0] {
      TextLeTotal(a[1..], b[1..]);
    }
  }

  lemma {:induction false} TextLeTransitive(a: string, b: string, c: string)
    requires TextLe(a, b) && TextLe(b, c)
    ensures TextLe(a, c)
  {
    if a != [] && b != [] && c != [] && a[0] == b[0] == c[0] {
      TextLeTransitive(a[1..], b[1..], c[1..]);
    }
  }

  /** BSON order: first by type rank, then by value within the type. */
  predicate Le(a: SortValue, b: SortValue) {
    if Rank(a) != Rank(b) then Rank(a) < Rank(b)
    else match (a, b)
      case (Num(x), Num(y)) => x <= y
      case (Text(x), Text(y)) => TextLe(x, y)
      case (ObjectIdValue(x), ObjectIdValue(y)) => TextLe(x, y)
      case (Bool(x), Bool(y)) => !x || y
      case (Date(x), Date(y)) => x <= y
      case _ => true
  }

  lemma LeTotal(a: SortValue, b: SortValue)
    ensures Le(a, b) || Le(b, a)
  {
    match (a, b)
    case (Text(x), Text(y)) => TextLeTotal(x, y);
    case (ObjectIdValue(x), ObjectIdValue(y)) => TextLeTotal(x, y);
    case _ =>
  }

  lemma LeTransitive(a: SortValue, b: SortValue, c: SortValue)
    requires Le(a, b) && Le(b, c)
    ensures Le(a, c)
  {
    if Rank(a) == Rank(b) == Rank(c) {
      match (a, b, c)
      case (Text(x), Text(y), Text(z)) => TextLeTransitive(x, y, z);
      case (ObjectIdValue(x), ObjectIdValue(y), ObjectIdValue(z)) => TextLeTransitive(x, y, z);
      case _ =>
    }
  }

  /** A sort direction: 1 ascending, -1 descending. */
  datatype Direction = Ascending | Descending

  function DirectionOf(direction: int): Direction {
    if direction == 1 then Ascending else Descending
  }

  predicate InOrder(a: SortValue, b: SortValue, dir: Direction) {
    if dir == Ascending then Le(a, b) else Le(b, a)
  }

  lemma InOrderTotal(a: SortValue, b: SortValue, dir: Direction)
    ensures InOrder(a, b, dir) || InOrder(b, a, dir)
  {
    LeTotal(a, b);
  }

  lemma InOrderTransitive(a: SortValue, b: SortValue, c: SortValue, dir: Direction)
    requires InOrder(a, b, dir) && InOrder(b, c, dir)
    ensures InOrder(a, c, dir)
  {
    if dir == Ascending { LeTransitive(a, b, c); } else { LeTransitive(c, b, a); }
  }

  ghost predicate SortedBy<T>(s: seq<T>, key: T -> SortValue, dir: Direction) {
    forall i, j :: 0 <= i < j < |s| ==> InOrder(key(s[i]), key(s[j]), dir)
  }

  /** Insertion of one element into a sorted sequence. */
  function InsertSorted<T>(x: T, s: seq<T>, key: T -> SortValue, dir: Direction): (r: seq<T>)
    requires SortedBy(s, key, dir)
    ensures multiset(r) == multiset(s) + multiset{x}
    ensures SortedBy(r, key, dir)
  {
    if s == [] then [x]
    else if InOrder(key(x), key(s[0]), dir) then
      assert forall j :: 0 <= j < |s| ==> InOrder(key(x), key(s[j]), dir) by {
        forall j | 0 <= j < |s| ensures InOrder(key(x), key(s[j]), dir) {
          if j > 0 { InOrderTransitive(key(x), key(s[0]), key(s[j]), dir); }
        }
      }
      [x] + s
    else
      InOrderTotal(key(x), key(s[0]), dir);
      var rest := InsertSorted(x, s[1..], key, dir);
      assert s == [s[0]] + s[1..];
      assert forall j :: 0 <= j < |rest| ==> InOrder(key(s[0]), key(rest[j]), dir) by {
        forall j | 0 <= j < |rest| ensures InOrder(key(s[0]), key(rest[j]), dir) {
          assert rest[j] in multiset(rest);
          if rest[j] != x {
            assert rest[j] in multiset(s[1..]);
            var k :| 0 <= k < |s[1..]| && s[1..][k] == rest[j];
            assert s[k + 1] == rest[j];
          }
        }
      }
      [s[0]] + rest
  }

  /** Insertion sort: a sorted permutation. */
  function SortBy<T>(s: seq<T>, key: T -> SortValue, dir: Direction): (r: seq<T>)
    ensures multiset(r) == multiset(s)
    ensures SortedBy(r, key, dir)
  {
    if s == [] then []
    else
      assert s == [s[0]] + s[1..];
      InsertSorted(s[0], SortBy(s[1..], key, dir), key, dir)
  }

  /** `skip(offset)` then `limit(limit)`, where 0 means "none" for both. */
  function PageOf<T>(s: seq<T>, offset: nat, limit: nat): (r: seq<T>)
    ensures offset <= |s| ==> r == s[offset..][..if limit == 0 || limit > |s| - offset then |s| - offset else limit]
    ensures offset >= |s| ==> r == []
  {
    var rest := if offset < |s| then s[offset..] else [];
    if limit == 0 || limit >= |rest| then rest else rest[..limit]
  }

  /** With neither skip nor limit, the page is everything. */
  lemma WholePage<T>(s: seq<T>)
    ensures PageOf(s, 0, 0) == s
  {
  }

  /** Pages never exceed the limit and never hold more than what matched. */
  lemma PageBounds<T>(s: seq<T>, offset: nat, limit: nat)
    ensures |PageOf(s, offset, limit)| <= |s|
    ensures limit > 0 ==> |PageOf(s, offset, limit)| <= limit
  {
  }

  /** The ids of the documents that match. */
  function MatchingIds<T>(coll: map<Id, T>, matches: T -> bool): set<Id> {
    set id | id in coll && matches(coll[id])
  }

  /** `ids` lists every matching document exactly once. */
  ghost predicate IsListing<T>(ids: seq<Id>, coll: map<Id, T>, matches: T -> bool) {
    multiset(ids) == multiset(MatchingIds(coll, matches))
  }

  /** The documents named by `ids`, in order, are in sort order. */
  ghost predicate SortedIds<T>(ids: seq<Id>, coll: map<Id, T>, key: T -> SortValue, dir: Direction) {
    forall i, j :: 0 <= i < j < |ids| && ids[i] in coll && ids[j] in coll ==>
      InOrder(key(coll[ids[i]]), key(coll[ids[j]]), dir)
  }

  /** `rows` are the documents named by `ids`, in the same order. */
  ghost predicate RowsOf<T>(coll: map<Id, T>, ids: seq<Id>, rows: seq<T>) {
    |rows| == |ids| && forall i :: 0 <= i < |ids| ==> ids[i] in coll && rows[i] == coll[ids[i]]
  }

  /** One possible answer of `find(...).sort(...).skip(...).limit(...)`. */
  ghost predicate IsQueryAnswer<T>(coll: map<Id, T>, matches: T -> bool, key: T -> SortValue,
                                   dir: Direction, offset: nat, limit: nat, rows: seq<T>) {
    exists ids :: IsListing(ids, coll, matches) && SortedIds(ids, coll, key, dir) &&
      RowsOf(coll, PageOf(ids, offset, limit), rows)
  }

  lemma ListingLength<T>(ids: seq<Id>, coll: map<Id, T>, matches: T -> bool)
    requires IsListing(ids, coll, matches)
    ensures |ids| == |MatchingIds(coll, matches)|
    ensures forall id :: id in ids <==> id in MatchingIds(coll, matches)
  {
    var all := MatchingIds(coll, matches);
    assert |multiset(ids)| == |ids|;
    SetCardinality(all);
    forall id ensures id in ids <==> id in all {
      assert id in ids <==> id in multiset(ids);
      assert id in all <==> id in multiset(all);
    }
  }

  /** A set as a multiset has the same size. */
  lemma {:induction false} SetCardinality(s: set<Id>)
    ensures |multiset(s)| == |s|
    decreases |s|
  {
    if s != {} {
      var x :| x in s;
      SetCardinality(s - {x});
      assert multiset(s) == multiset(s - {x}) + multiset{x};
    }
  }

  /** Whatever the order of ties, an unpaged answer holds every match once. */
  lemma UnpagedAnswerIsComplete<T>(coll: map<Id, T>, matches: T -> bool, key: T -> SortValue,
                                   dir: Direction, rows: seq<T>)
    requires IsQueryAnswer(coll, matches, key, dir, 0, 0, rows)
    ensures |rows| == |MatchingIds(coll, matches)|
    ensures forall r :: r in rows ==> matches(r)
    ensures forall id :: id in coll && matches(coll[id]) ==> coll[id] in rows
  {
    var ids :| IsListing(ids, coll, matches) && SortedIds(ids, coll, key, dir) &&
      RowsOf(coll, PageOf(ids, 0, 0), rows);
    WholePage(ids);
    ListingLength(ids, coll, matches);
    forall r | r in rows ensures matches(r) {
      var i :| 0 <= i < |rows| && rows[i] == r;
      assert ids[i] in MatchingIds(coll, matches);
    }
    forall id | id in coll && matches(coll[id]) ensures coll[id] in rows {
      assert id in MatchingIds(coll, matches);
      var i :| 0 <= i < |ids| && ids[i] == id;
      assert rows[i] == coll[id];
    }
  }

  /** The first row of an unpaged answer is a match that no other match precedes in sort order. */
  lemma FirstOfUnpagedAnswer<T>(coll: map<Id, T>, matches: T -> bool, key: T -> SortValue,
                                dir: Direction, rows: seq<T>)
    requires IsQueryAnswer(coll, matches, key, dir, 0, 0, rows) && rows != []
    ensures exists id :: id in coll && matches(coll[id]) && rows[0] == coll[id]
    ensures forall id :: id in coll && matches(coll[id]) ==> coll[id] == rows[0] || InOrder(key(rows[0]), key(coll[id]), dir)
  {
    var ids :| IsListing(ids, coll, matches) && SortedIds(ids, coll, key, dir) &&
      RowsOf(coll, PageOf(ids, 0, 0), rows);
    WholePage(ids);
    ListingLength(ids, coll, matches);
    assert ids[0] in MatchingIds(coll, matches);
    forall id | id in coll && matches(coll[id])
      ensures coll[id] == rows[0] || InOrder(key(rows[0]), key(coll[id]), dir)
    {
      assert id in MatchingIds(coll, matches);
      var j :| 0 <= j < |ids| && ids[j] == id;
      if j > 0 {
        assert InOrder(key(coll[ids[0]]), key(coll[ids[j]]), dir);
      }
    }
  }

  /** The elements of a set, one at a time, in an unspecified order. */
  method Enumerate(all: set<Id>) returns (ids: seq<Id>)
    ensures multiset(ids) == multiset(all)
  {
    var pending := all;
    ids := [];
    while pending != {}
      invariant pending <= all
      invariant multiset(ids) + multiset(pending) == multiset(all)
      decreases |pending|
    {
      var id :| id in pending;
      assert multiset(pending) == multiset(pending - {id}) + multiset{id};
      ids := ids + [id];
      pending := pending - {id};
    }
  }

  /** Sorting ids by the key of the document each names sorts the documents. */
  lemma SortedByKeyOfId<T>(ids: seq<Id>, coll: map<Id, T>, key: T -> SortValue, dir: Direction)
    requires SortedBy(ids, (id: Id) => if id in coll then key(coll[id]) else Missing, dir)
    ensures SortedIds(ids, coll, key, dir)
  {
    var idKey := (id: Id) => if id in coll then key(coll[id]) else Missing;
    forall i, j | 0 <= i < j < |ids| && ids[i] in coll && ids[j] in coll
      ensures InOrder(key(coll[ids[i]]), key(coll[ids[j]]), dir)
    {
      assert InOrder(idKey(ids[i]), idKey(ids[j]), dir);
    }
  }

  /** The documents named by `ids`. */
  function Lookup<T>(coll: map<Id, T>, ids: seq<Id>): (rows: seq<T>)
    requires forall id :: id in ids ==> id in coll
    ensures RowsOf(coll, ids, rows)
  {
    if ids == [] then [] else [coll[ids[0]]] + Lookup(coll, ids[1..])
  }

  /**
   * `Promise.all([find(criteria).sort().skip().limit(), countDocuments(criteria)])`:
   * the rows are some listing of the matches in sort order, paged; the count
   * ignores skip and limit.
   */
  method FindAndCount<T>(coll: map<Id, T>, matches: T -> bool, key: T -> SortValue,
                         dir: Direction, offset: nat, limit: nat)
    returns (rows: seq<T>, count: nat)
    ensures count == |MatchingIds(coll, matches)|
    ensures IsQueryAnswer(coll, matches, key, dir, offset, limit, rows)
  {
    var all := MatchingIds(coll, matches);
    count := |all|;
    var ids := Enumerate(all);
    var idKey := (id: Id) => if id in coll then key(coll[id]) else Missing;
    var sorted := SortBy(ids, idKey, dir);
    SortedByKeyOfId(sorted, coll, key, dir);
    var page := PageOf(sorted, offset, limit);
    ListingLength(sorted, coll, matches);
    assert forall id :: id in page ==> id in sorted;
    rows := Lookup(coll, page);
  }

  /** Two criteria that agree on every stored document have the same matches and answers. */
  lemma EquivalentCriteria<T>(coll: map<Id, T>, f: T -> bool, g: T -> bool, key: T -> SortValue,
                              dir: Direction, offset: nat, limit: nat, rows: seq<T>)
    requires forall id :: id in coll ==> f(coll[id]) == g(coll[id])
    ensures MatchingIds(coll, f) == MatchingIds(coll, g)
    ensures IsQueryAnswer(coll, f, key, dir, offset, limit, rows) ==> IsQueryAnswer(coll, g, key, dir, offset, limit, rows)
  {
    assert MatchingIds(coll, f) == MatchingIds(coll, g);
  }
}
