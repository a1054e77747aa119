/**
 * Helpers used to build MongoDB queries: ObjectId coercion, regular
 * expression escaping, sort parsing and range criteria
 * (src/database/utils/mongooseQueryUtils.ts).
 */
module QueryUtils {
  import opened Wrappers

  /** Identifiers are the hexadecimal text of a MongoDB ObjectId. */
  type Id = string

  // ---------------------------------------------------------------------
  // ObjectId validity and `uuid`
  // ---------------------------------------------------------------------

  predicate IsHexDigit(c: char) {
    ('0' <= c <= '9') || ('a' <= c <= 'f') || ('A' <= c <= 'F')
  }

  /** The text form that the BSON library accepts for an ObjectId: 24 hexadecimal digits. */
  predicate IsValidObjectId(s: string) {
    |s| == 24 && forall i :: 0 <= i < |s| ==> IsHexDigit(s[i])
  }

  /**
   * `uuid(value)`: a valid id is kept, anything else is replaced by `generated`,
   * the id built from the current time, which the doc-comment promises matches
   * no stored record.
   */
  function Uuid(value: string, generated: Id): (id: Id)
    ensures id == value || id == generated
    ensures IsValidObjectId(value) ==> id == value
    ensures !IsValidObjectId(value) ==> id == generated
    ensures IsValidObjectId(generated) ==> IsValidObjectId(id)
  {
    if IsValidObjectId(value) then value else generated
  }

  /** An invalid value can only ever select the generated id. */
  lemma UuidOfInvalid(value: string, generated: Id, stored: set<Id>)
    requires !IsValidObjectId(value) && generated !in stored
    ensures Uuid(value, generated) !in stored
  {
  }

  // ---------------------------------------------------------------------
  // escapeRegExp
  // ---------------------------------------------------------------------

  /** The characters `. * + ? ^ $ { } ( ) | [ ] \` of the escaping pattern. */
  predicate IsRegexSpecial(c: char) {
    c == '.' || c == '*' || c == '+' || c == '?' || c == '^' || c == '$' ||
    c == '{' || c == '}' || c == '(' || c == ')' || c == '|' || c == '[' ||
    c == ']' || c == '\\'
  }

  function CountSpecial(s: string): nat {
    if s == [] then 0 else (if IsRegexSpecial(s[0]) then 1 else 0) + CountSpecial(s[1..])
  }

  /** The escape of one character: a backslash before a special one. */
  function EscapeChar(c: char): (r: string)
    ensures |r| == if IsRegexSpecial(c) then 2 else 1
  {
    if IsRegexSpecial(c) then ['\\', c] else [c]
  }

  /** `escapeRegExp`: `value.replace(/[.*+?^${}()|[\]\\]/g, '\\$&')`. */
  function EscapeRegExp(s: string): (r: string)
    ensures |r| == |s| + CountSpecial(s)
  {
    if s == [] then [] else EscapeChar(s[0]) + EscapeRegExp(s[1..])
  }

  /** Drops the backslash of every escape pair; the inverse of `EscapeRegExp`. */
  function Unescape(r: string): string {
    if r == [] then []
    else if r[0] == '\\' && |r| >= 2 then [r[1]] + Unescape(r[2..])
    else [r[0]] + Unescape(r[1..])
  }

  /** Escaping works character by character. */
  lemma {:induction false} EscapeAppend(a: string, b: string)
    ensures EscapeRegExp(a + b) == EscapeRegExp(a) + EscapeRegExp(b)
  {
    if a == [] {
      assert a + b == b;
    } else {
      assert (a + b)[0] == a[0] && (a + b)[1..] == a[1..] + b;
      EscapeAppend(a[1..], b);
    }
  }

  /** Dropping the inserted backslashes gives the input back. */
  lemma {:induction false} UnescapeEscape(s: string)
    ensures Unescape(EscapeRegExp(s)) == s
  {
    if s != [] {
      UnescapeEscape(s[1..]);
      var rest := EscapeRegExp(s[1..]);
      if IsRegexSpecial(s[0]) {
        assert EscapeRegExp(s) == ['\\', s[0]] + rest;
        assert (['\\', s[0]] + rest)[2..] == rest;
      } else {
        assert EscapeRegExp(s) == [s[0]] + rest;
        assert ([s[0]] + rest)[1..] == rest;
      }
    }
  }

  /** Escaping is injective: two texts with the same escape are the same text. */
  lemma EscapeInjective(a: string, b: string)
    requires EscapeRegExp(a) == EscapeRegExp(b)
    ensures a == b
  {
    UnescapeEscape(a);
    UnescapeEscape(b);
  }

  // ---------------------------------------------------------------------
  // Case-insensitive matching of an escaped pattern
  // ---------------------------------------------------------------------

  function LowerChar(c: char): char {
    if 'A' <= c <= 'Z' then (c as int + 32) as char else c
  }

  function Lower(s: string): (r: string)
    ensures |r| == |s|
    ensures forall i :: 0 <= i < |s| ==> r[i] == LowerChar(s[i])
  {
    if s == [] then [] else [LowerChar(s[0])] + Lower(s[1..])
  }

  predicate EqualsIgnoringCase(a: string, b: string) {
    Lower(a) == Lower(b)
  }

  /**
   * Lower-casing a text before a case-insensitive comparison changes nothing:
   * lower-casing twice is lower-casing once.
   */
  lemma LoweredTextComparesTheSame(a: string, b: string)
    ensures EqualsIgnoringCase(a, Lower(b)) <==> EqualsIgnoringCase(a, b)
  {
    assert forall i :: 0 <= i < |b| ==> Lower(Lower(b))[i] == Lower(b)[i];
  }

  /** `part` occurs in `text` at position `i`, ignoring case. */
  predicate OccursAt(text: string, part: string, i: int) {
    0 <= i && i + |part| <= |text| && Lower(text)[i..i + |part|] == Lower(part)
  }

  predicate ContainsIgnoringCase(text: string, part: string) {
    exists i :: 0 <= i <= |text| && OccursAt(text, part, i)
  }

  /**
   * `{ $regex: pattern, $options: 'i' }` for a pattern produced by
   * `EscapeRegExp`: a case-insensitive substring test of the literal text.
   */
  predicate RegexContains(field: string, pattern: string) {
    ContainsIgnoringCase(field, Unescape(pattern))
  }

  /** `{ $regex: ^pattern$, $options: 'i' }`: the whole field, ignoring case. */
  predicate RegexWhole(field: string, pattern: string) {
    EqualsIgnoringCase(field, Unescape(pattern))
  }

  /** An escaped search text matches as literal text, whatever it contains. */
  lemma EscapedSearchIsLiteral(field: string, search: string)
    ensures RegexContains(field, EscapeRegExp(search)) <==> ContainsIgnoringCase(field, search)
    ensures RegexWhole(field, EscapeRegExp(search)) <==> EqualsIgnoringCase(field, search)
  {
    UnescapeEscape(search);
  }

  /** An empty search text is contained in every field. */
  lemma EmptyContainedEverywhere(field: string)
    ensures ContainsIgnoringCase(field, "")
  {
    assert |Lower("")| == 0;
    assert 0 <= 0 <= |field| && OccursAt(field, "", 0);
  }

  // ---------------------------------------------------------------------
  // sort
  // ---------------------------------------------------------------------

  /** `String.prototype.split` with a one-character separator. */
  function SplitOn(s: string, sep: char): (pieces: seq<string>)
    ensures |pieces| >= 1
    ensures forall k :: 0 <= k < |pieces| ==> sep !in pieces[k]
  {
    if s == [] then [""]
    else
      var rest := SplitOn(s[1..], sep);
      if s[0] == sep then [""] + rest else [[s[0]] + rest[0]] + rest[1..]
  }

  /** `Array.prototype.join` with a one-character separator. */
  function JoinWith(pieces: seq<string>, sep: char): string
    requires |pieces| >= 1
  {
    if |pieces| == 1 then pieces[0] else pieces[0] + [sep] + JoinWith(pieces[1..], sep)
  }

  /** Splitting loses nothing: joining the pieces gives the text back. */
  lemma {:induction false} JoinSplit(s: string, sep: char)
    ensures JoinWith(SplitOn(s, sep), sep) == s
  {
    if s != [] {
      JoinSplit(s[1..], sep);
      var rest := SplitOn(s[1..], sep);
      if s[0] == sep {
        assert SplitOn(s, sep) == [""] + rest;
        assert ([""] + rest)[1..] == rest;
      } else {
        var p := [[s[0]] + rest[0]] + rest[1..];
        assert SplitOn(s, sep) == p;
        if |rest| == 1 {
        } else {
          assert p[1..] == rest[1..];
          assert JoinWith(rest, sep) == rest[0] + [sep] + JoinWith(rest[1..], sep);
        }
      }
    }
  }

  /** A text without the separator is one piece. */
  lemma {:induction false} SplitWithoutSeparator(s: string, sep: char)
    requires sep !in s
    ensures SplitOn(s, sep) == [s]
  {
    if s != [] {
      SplitWithoutSeparator(s[1..], sep);
      assert [s[0]] + s[1..] == s;
    }
  }

  /** A separator after a separator-free head starts a new piece. */
  lemma {:induction false} SplitAtFirstSeparator(head: string, sep: char, tail: string)
    requires sep !in head
    ensures SplitOn(head + [sep] + tail, sep) == [head] + SplitOn(tail, sep)
  {
    if head == [] {
      assert head + [sep] + tail == [sep] + tail;
      assert ([sep] + tail)[1..] == tail;
    } else {
      var x := head + [sep] + tail;
      assert x[0] == head[0] && x[1..] == head[1..] + [sep] + tail;
      SplitAtFirstSeparator(head[1..], sep, tail);
      var rest := SplitOn(x[1..], sep);
      assert rest == [head[1..]] + SplitOn(tail, sep);
      assert [head[0]] + head[1..] == head;
    }
  }

  /** The parsed `orderBy`: a column and 1 (ascending) or -1 (descending). */
  datatype SortSpec = SortSpec(column: string, direction: int)

  /**
   * `sort(orderBy)`: no sort for an empty text; otherwise the first two
   * `_`-separated pieces give column and order, `id` stands for `_id`, and the
   * direction is 1 only for exactly `ASC`.
   */
  function Sort(orderBy: string): (r: Option<SortSpec>)
    ensures r.None? <==> orderBy == ""
    ensures r.Some? ==> r.value.direction == 1 || r.value.direction == -1
  {
    if orderBy == "" then None
    else
      var pieces := SplitOn(orderBy, '_');
      var column := if pieces[0] == "id" then "_id" else pieces[0];
      var order := if |pieces| > 1 then Some(pieces[1]) else None;
      Some(SortSpec(column, if order == Some("ASC") then 1 else -1))
  }

  /** `<column>_<order>`: the column is renamed only when it is `id`; only `ASC` ascends. */
  lemma SortOfColumnAndOrder(column: string, order: string, more: string)
    requires column != "" && '_' !in column && '_' !in order
    ensures Sort(column + "_" + order) ==
      Some(SortSpec(if column == "id" then "_id" else column, if order == "ASC" then 1 else -1))
    ensures Sort(column + "_" + order + "_" + more) == Sort(column + "_" + order)
  {
    SplitAtFirstSeparator(column, '_', order);
    SplitWithoutSeparator(order, '_');
    SplitAtFirstSeparator(column, '_', order + "_" + more);
    assert column + "_" + order + "_" + more == column + ['_'] + (order + "_" + more);
    SplitAtFirstSeparator(order, '_', more);
    assert order + "_" + more == order + ['_'] + more;
  }

  /** A column with no `_` at all is sorted descending. */
  lemma SortWithoutOrder(column: string)
    requires column != "" && '_' !in column
    ensures Sort(column) == Some(SortSpec(if column == "id" then "_id" else column, -1))
  {
    SplitWithoutSeparator(column, '_');
  }

  /** `sort(orderBy || 'createdAt_DESC')`, the default of every listing. */
  function SortOrNewestFirst(orderBy: string): (s: SortSpec)
    ensures orderBy == "" ==> s == SortSpec("createdAt", -1)
    ensures orderBy != "" ==> Sort(orderBy) == Some(s)
  {
    assert "createdAt" + "_" + "DESC" == "createdAt_DESC";
    SortOfColumnAndOrder("createdAt", "DESC", "");
    Sort(if orderBy == "" then "createdAt_DESC" else orderBy).value
  }

  /** A field name containing `_` is cut at its first `_`. */
  lemma SortTruncatesUnderscoredField()
    ensures Sort("created_at_ASC") == Some(SortSpec("created", -1))
  {
    assert "created_at_ASC" == "created" + "_" + "at" + "_" + "ASC";
    assert '_' !in "created" && '_' !in "at";
    SortOfColumnAndOrder("created", "at", "ASC");
  }

  // ---------------------------------------------------------------------
  // pushRangeCriteria
  // ---------------------------------------------------------------------

  /** A JavaScript value used as a range bound. */
  datatype Bound = Undefined | Null | Text(text: string) | Number(n: int) | Boolean(b: bool)

  /** A bound is used unless it is undefined, null or the empty string. */
  predicate IsSet(b: Bound) {
    !(b.Undefined? || b.Null? || b == Text(""))
  }

  datatype RangeCriterion = AtLeast(field: string, bound: Bound) | AtMost(field: string, bound: Bound)

  /** `const [start, end] = array`: a missing element is undefined. */
  function ElementAt(values: seq<Bound>, i: nat): Bound {
    if i < |values| then values[i] else Undefined
  }

  /** The criteria one field adds: `$gte` for its start, then `$lte` for its end. */
  function FieldRangeCriteria(filter: map<string, seq<Bound>>, field: string): seq<RangeCriterion> {
    var key := field + "Range";
    if key !in filter then []
    else
      var start := ElementAt(filter[key], 0);
      var end := ElementAt(filter[key], 1);
      (if IsSet(start) then [AtLeast(field, start)] else []) +
      (if IsSet(end) then [AtMost(field, end)] else [])
  }

  /** The criteria of all fields, in field order. */
  function RangeCriteria(filter: map<string, seq<Bound>>, fields: seq<string>): seq<RangeCriterion>
    decreases |fields|
  {
    if fields == [] then []
    else RangeCriteria(filter, fields[..|fields| - 1]) + FieldRangeCriteria(filter, fields[|fields| - 1])
  }

  /** Every criterion comes from a listed field with a `<field>Range` filter and a set bound. */
  lemma {:induction false} RangeCriteriaSound(filter: map<string, seq<Bound>>, fields: seq<string>)
    ensures forall c :: c in RangeCriteria(filter, fields) ==>
      c.field in fields && c.field + "Range" in filter && IsSet(c.bound)
  {
    if fields != [] {
      RangeCriteriaSound(filter, fields[..|fields| - 1]);
    }
  }

  /** A listed field with a set start (end) adds `$gte` (`$lte`) of exactly that bound. */
  lemma {:induction false} RangeCriteriaComplete(filter: map<string, seq<Bound>>, fields: seq<string>, field: string)
    requires field in fields && field + "Range" in filter
    ensures IsSet(ElementAt(filter[field + "Range"], 0)) ==>
      AtLeast(field, ElementAt(filter[field + "Range"], 0)) in RangeCriteria(filter, fields)
    ensures IsSet(ElementAt(filter[field + "Range"], 1)) ==>
      AtMost(field, ElementAt(filter[field + "Range"], 1)) in RangeCriteria(filter, fields)
  {
    var last := fields[|fields| - 1];
    if field != last {
      assert field in fields[..|fields| - 1];
      RangeCriteriaComplete(filter, fields[..|fields| - 1], field);
    }
  }

  /** 0 and false are kept as bounds; only undefined, null and '' are skipped. */
  lemma ZeroAndFalseAreBounds(filter: map<string, seq<Bound>>, field: string)
    requires filter == map[field + "Range" := [Number(0), Boolean(false)]]
    ensures RangeCriteria(filter, [field]) == [AtLeast(field, Number(0)), AtMost(field, Boolean(false))]
  {
    assert [field][..0] == [];
  }

  /** `if (given) criteria.push(c)`, as the piece it contributes. */
  function When<T>(given: bool, c: T): (r: seq<T>)
    ensures given ==> r == [c]
    ensures !given ==> r == []
  {
    if given then [c] else []
  }

  /** The caller's criteria array, which `pushRangeCriteria` appends to. */
  class CriteriaArray {
    var items: seq<RangeCriterion>

    constructor (initial: seq<RangeCriterion>)
      ensures items == initial
    {
      items := initial;
    }
  }

  /** `pushRangeCriteria(criteria, filter, fields)`: appends, never removes or reorders. */
  method PushRangeCriteria(criteria: CriteriaArray, filter: map<string, seq<Bound>>, fields: seq<string>)
    modifies criteria
    ensures criteria.items == old(criteria.items) + RangeCriteria(filter, fields)
  {
    for i := 0 to |fields|
      invariant criteria.items == old(criteria.items) + RangeCriteria(filter, fields[..i])
    {
      PushFieldRange(criteria, filter, fields[i]);
      assert fields[..i + 1][..i] == fields[..i];
    }
    assert fields[..|fields|] == fields;
  }

  /** One turn of `pushRangeCriteria`'s loop: the bounds of one field's range that are set, start first. */
  method PushFieldRange(criteria: CriteriaArray, filter: map<string, seq<Bound>>, field: string)
    modifies criteria
    ensures criteria.items == old(criteria.items) + FieldRangeCriteria(filter, field)
  {
    var key := field + "Range";
    if key in filter {
      var start := ElementAt(filter[key], 0);
      var end := ElementAt(filter[key], 1);
      if IsSet(start) {
        criteria.items := criteria.items + [AtLeast(field, start)];
      }
      if IsSet(end) {
        criteria.items := criteria.items + [AtMost(field, end)];
      }
    }
  }
}
