/**
 * The query steps the list handlers chain on a table: `ilike` filters,
 * `order_by` on one column, and `offset`/`limit`. A table is a sequence
 * of rows; `order_by` is a stable sort by the column's value, which is one
 * of the orders SQL allows (it leaves the order of ties open).
 */
module Query {
  import opened Wrappers

  /** Python truthiness of an optional string parameter: given and not empty. */
  predicate Given(s: Option<string>) {
    s.Some? && s.value != ""
  }

  /** Lower-case folding of ASCII letters. */
  function LowerChar(c: char): char {
    if 'A' <= c <= 'Z' then (c as int + 32) as char else c
  }

  function Lower(s: string): (r: string)
    ensures |r| == |s| && forall i :: 0 <= i < |s| ==> r[i] == LowerChar(s[i])
  {
    seq(|s|, i requires 0 <= i < |s| => LowerChar(s[i]))
  }

  /** `needle` occurs in `hay`: it is a prefix of `hay` or of one of its suffixes. */
  predicate Contains(hay: string, needle: string)
    decreases |hay|
  {
    needle <= hay || (hay != [] && Contains(hay[1..], needle))
  }

  /** An occurrence of `needle` at any position `i` makes `Contains` hold. */
  lemma {:induction false} ContainsAt(hay: string, needle: string, i: nat)
    requires i <= |hay| && needle <= hay[i..]
    ensures Contains(hay, needle)
    decreases i
  {
    if i > 0 {
      assert hay[1..][i - 1..] == hay[i..];
      ContainsAt(hay[1..], needle, i - 1);
    }
  }

  /** `Contains` holds only through an occurrence at some position. */
  lemma {:induction false} ContainsHasPosition(hay: string, needle: string) returns (i: nat)
    requires Contains(hay, needle)
    ensures i <= |hay| && needle <= hay[i..]
    decreases |hay|
  {
    if needle <= hay {
      i := 0;
    } else {
      var j := ContainsHasPosition(hay[1..], needle);
      assert hay[1..][j..] == hay[j + 1..];
      i := j + 1;
    }
  }

  /** `column.ilike(f"%{pattern}%")`: case-insensitive substring match. */
  predicate ILike(value: string, pattern: string) {
    Contains(Lower(value), Lower(pattern))
  }

  /** Folding case twice is folding once, so the match ignores the case of both sides. */
  lemma ILikeIgnoresCase(value: string, pattern: string)
    ensures ILike(value, pattern) == ILike(Lower(value), Lower(pattern))
  {
    assert Lower(Lower(value)) == Lower(value);
    assert Lower(Lower(pattern)) == Lower(pattern);
  }

  /** The pattern occurs in `value` at position `i`, letter case aside. */
  predicate MatchesAt(value: string, pattern: string, i: nat) {
    i + |pattern| <= |value|
    && forall k :: 0 <= k < |pattern| ==> LowerChar(value[i + k]) == LowerChar(pattern[k])
  }

  /** `ilike` holds exactly when some stretch of the value equals the pattern up to ASCII case. */
  lemma ILikeIsCaselessInfix(value: string, pattern: string)
    ensures ILike(value, pattern) <==> exists i: nat :: MatchesAt(value, pattern, i)
  {
    if ILike(value, pattern) {
      var i := ContainsHasPosition(Lower(value), Lower(pattern));
      forall k | 0 <= k < |pattern|
        ensures LowerChar(value[i + k]) == LowerChar(pattern[k])
      {
        assert Lower(value)[i..][k] == Lower(pattern)[k];
      }
      assert MatchesAt(value, pattern, i);
    }
    if exists i: nat :: MatchesAt(value, pattern, i) {
      var i: nat :| MatchesAt(value, pattern, i);
      forall k | 0 <= k < |pattern|
        ensures Lower(pattern)[k] == Lower(value)[i..][k]
      {
        assert Lower(value)[i..][k] == Lower(value)[i + k];
      }
      assert Lower(pattern) <= Lower(value)[i..];
      ContainsAt(Lower(value), Lower(pattern), i);
    }
  }

  /** The same column on a nullable field: NULL never matches. */
  predicate ILikeNullable(value: Option<string>, pattern: string) {
    value.Some? && ILike(value.value, pattern)
  }

  /** `query.filter(keep)`: the rows that pass, in table order. */
  function Filter<T>(s: seq<T>, keep: T -> bool): (r: seq<T>)
    ensures |r| <= |s|
    ensures forall i :: 0 <= i < |r| ==> keep(r[i])
    ensures multiset(r) <= multiset(s)
    ensures forall x :: x in s && keep(x) ==> x in r
  {
    if s == [] then []
    else
      var rest := Filter(s[1..], keep);
      assert s == [s[0]] + s[1..];
      if keep(s[0]) then [s[0]] + rest else rest
  }

  /** Filtering keeps relative order: the result is a subsequence of the table. */
  ghost predicate SubsequenceOf<T>(r: seq<T>, s: seq<T>)
    decreases |s|
  {
    r == [] || (s != [] && ((r[0] == s[0] && SubsequenceOf(r[1..], s[1..])) || SubsequenceOf(r, s[1..])))
  }

  lemma {:induction false} FilterIsSubsequence<T>(s: seq<T>, keep: T -> bool)
    ensures SubsequenceOf(Filter(s, keep), s)
  {
    if s != [] {
      FilterIsSubsequence(s[1..], keep);
      var rest := Filter(s[1..], keep);
      if keep(s[0]) {
        assert Filter(s, keep) == [s[0]] + rest;
        assert (Filter(s, keep))[1..] == rest;
      } else {
        assert Filter(s, keep) == rest;
      }
    }
  }

  /** A value is kept exactly when it is in the table and passes. */
  lemma FilterMember<T>(s: seq<T>, keep: T -> bool, x: T)
    ensures x in Filter(s, keep) <==> x in s && keep(x)
  {
    var r := Filter(s, keep);
    if x in r {
      assert x in multiset(r);
      var i :| 0 <= i < |r| && r[i] == x;
      assert keep(r[i]);
    }
  }

  /** A filter that keeps everything changes nothing. */
  lemma {:induction false} FilterAll<T>(s: seq<T>, keep: T -> bool)
    requires forall x :: x in s ==> keep(x)
    ensures Filter(s, keep) == s
  {
    if s != [] {
      assert forall x :: x in s[1..] ==> x in s;
      FilterAll(s[1..], keep);
    }
  }

  /** Two filters in a row keep exactly the rows that pass both. */
  lemma {:induction false} FilterTwice<T>(s: seq<T>, p: T -> bool, q: T -> bool, both: T -> bool)
    requires forall x :: x in s ==> both(x) == (p(x) && q(x))
    ensures Filter(Filter(s, p), q) == Filter(s, both)
  {
    if s != [] {
      assert forall x :: x in s[1..] ==> x in s;
      FilterTwice(s[1..], p, q, both);
    }
  }

  /** Filters that agree on every row keep the same rows. */
  lemma {:induction false} FilterCongruent<T>(s: seq<T>, p: T -> bool, q: T -> bool)
    requires forall x :: x in s ==> p(x) == q(x)
    ensures Filter(s, p) == Filter(s, q)
  {
    if s != [] {
      assert forall x :: x in s[1..] ==> x in s;
      FilterCongruent(s[1..], p, q);
    }
  }

  // ---- order_by ----

  /** The value of the sort column of a row. */
  datatype Key = IntKey(i: int) | RealKey(r: real) | StrKey(s: string)

  /** Code-point lexicographic order on text (SQL collations are not modelled). */
  predicate StrLe(a: string, b: string)
    decreases |a|
  {
    a == [] || (b != [] && (a[0] < b[0] || (a[0] == b[0] && StrLe(a[1..], b[1..]))))
  }

  lemma {:induction false} StrLeTotal(a: string, b: string)
    ensures StrLe(a, b) || StrLe(b, a)
    decreases |a|
  {
    if a != [] && b != [] && a[0] == b[0] {
      StrLeTotal(a[1..], b[1..]);
    }
  }

  lemma {:induction false} StrLeTransitive(a: string, b: string, c: string)
    requires StrLe(a, b) && StrLe(b, c)
    ensures StrLe(a, c)
    decreases |a|
  {
    if a != [] && b != [] && c != [] && a[0] == b[0] && b[0] == c[0] {
      StrLeTransitive(a[1..], b[1..], c[1..]);
    }
  }

  function Rank(k: Key): int {
    match k
    case IntKey(_) => 0
    case RealKey(_) => 1
    case StrKey(_) => 2
  }

  /** Ascending order on column values (a column's values all have one kind). */
  predicate KeyLe(a: Key, b: Key) {
    if Rank(a) != Rank(b) then Rank(a) < Rank(b)
    else match a
      case IntKey(x) => x <= b.i
      case RealKey(x) => x <= b.r
      case StrKey(x) => StrLe(x, b.s)
  }

  /** Row `a` may come before row `b` in the requested direction. */
  predicate InOrder<T>(key: T -> Key, desc: bool, a: T, b: T) {
    if desc then KeyLe(key(b), key(a)) else KeyLe(key(a), key(b))
  }

  lemma InOrderTotal<T>(key: T -> Key, desc: bool, a: T, b: T)
    ensures InOrder(key, desc, a, b) || InOrder(key, desc, b, a)
  {
    var ka, kb := key(a), key(b);
    if Rank(ka) == Rank(kb) && ka.StrKey? {
      StrLeTotal(ka.s, kb.s);
    }
  }

  lemma InOrderTransitive<T>(key: T -> Key, desc: bool, a: T, b: T, c: T)
    requires InOrder(key, desc, a, b) && InOrder(key, desc, b, c)
    ensures InOrder(key, desc, a, c)
  {
    var ka, kb, kc := key(a), key(b), key(c);
    if Rank(ka) == Rank(kb) == Rank(kc) && ka.StrKey? {
      if desc {
        StrLeTransitive(kc.s, kb.s, ka.s);
      } else {
        StrLeTransitive(ka.s, kb.s, kc.s);
      }
    }
  }

  ghost predicate SortedBy<T>(s: seq<T>, key: T -> Key, desc: bool) {
    forall i, j :: 0 <= i < j < |s| ==> InOrder(key, desc, s[i], s[j])
  }

  /** Put `x` before the first row it may precede. */
  function Insert<T>(x: T, s: seq<T>, key: T -> Key, desc: bool): (r: seq<T>)
    ensures multiset(r) == multiset(s) + multiset{x}
    ensures |r| == |s| + 1
  {
    if s == [] then [x]
    else if InOrder(key, desc, x, s[0]) then [x] + s
    else
      assert s == [s[0]] + s[1..];
      [s[0]] + Insert(x, s[1..], key, desc)
  }

  /** Inserting adds `x` and nothing else. */
  lemma InsertMembers<T>(x: T, s: seq<T>, key: T -> Key, desc: bool)
    ensures forall y :: y in Insert(x, s, key, desc) ==> y == x || y in s
  {
    var r := Insert(x, s, key, desc);
    forall y | y in r ensures y == x || y in s {
      assert y in multiset(r);
    }
  }

  /** A row that may precede every row of a sorted sequence may go in front of it. */
  lemma ConsSorted<T>(h: T, s: seq<T>, key: T -> Key, desc: bool)
    requires SortedBy(s, key, desc)
    requires forall y :: y in s ==> InOrder(key, desc, h, y)
    ensures SortedBy([h] + s, key, desc)
  {
    var r := [h] + s;
    forall i, j | 0 <= i < j < |r| ensures InOrder(key, desc, r[i], r[j]) {
      assert r[j] == s[j - 1];
      if i > 0 {
        assert r[i] == s[i - 1];
      } else {
        assert s[j - 1] in s;
      }
    }
  }

  lemma {:induction false} InsertSorted<T>(x: T, s: seq<T>, key: T -> Key, desc: bool)
    requires SortedBy(s, key, desc)
    ensures SortedBy(Insert(x, s, key, desc), key, desc)
  {
    if s == [] {
    } else if InOrder(key, desc, x, s[0]) {
      forall y | y in s ensures InOrder(key, desc, x, y) {
        var k :| 0 <= k < |s| && s[k] == y;
        if k > 0 {
          InOrderTransitive(key, desc, x, s[0], y);
        }
      }
      ConsSorted(x, s, key, desc);
    } else {
      InOrderTotal(key, desc, x, s[0]);
      InsertSorted(x, s[1..], key, desc);
      InsertMembers(x, s[1..], key, desc);
      var tail := Insert(x, s[1..], key, desc);
      forall y | y in tail ensures InOrder(key, desc, s[0], y) {
        if y != x {
          var k :| 0 <= k < |s[1..]| && s[1..][k] == y;
          assert s[k + 1] == y;
        }
      }
      ConsSorted(s[0], tail, key, desc);
    }
  }

  /** `query.order_by(column)` or `.order_by(column.desc())`: a stable insertion sort. */
  function Sort<T>(s: seq<T>, key: T -> Key, desc: bool): (r: seq<T>)
    ensures multiset(r) == multiset(s)
    ensures |r| == |s|
  {
    if s == [] then []
    else
      assert s == [s[0]] + s[1..];
      Insert(s[0], Sort(s[1..], key, desc), key, desc)
  }

  /** `order_by` on a whitelisted column: sorted by its key, descending only when asked; any other column keeps table order. */
  function OrderBy<T>(rows: seq<T>, column: string, columns: seq<string>, key: T -> Key, desc: bool): seq<T> {
    if column in columns then Sort(rows, key, desc) else rows
  }

  lemma OrderByIsSortedPermutation<T>(rows: seq<T>, column: string, columns: seq<string>, key: T -> Key, desc: bool)
    ensures multiset(OrderBy(rows, column, columns, key, desc)) == multiset(rows)
    ensures column in columns ==> SortedBy(OrderBy(rows, column, columns, key, desc), key, desc)
    ensures column !in columns ==> OrderBy(rows, column, columns, key, desc) == rows
  {
    if column in columns {
      SortSorted(rows, key, desc);
    }
  }

  /** Ordering yields the same rows, sorted on the column in the requested direction. */
  lemma {:induction false} SortSorted<T>(s: seq<T>, key: T -> Key, desc: bool)
    ensures SortedBy(Sort(s, key, desc), key, desc)
  {
    if s != [] {
      SortSorted(s[1..], key, desc);
      InsertSorted(s[0], Sort(s[1..], key, desc), key, desc);
    }
  }

  // ---- offset / limit ----

  function Min(a: int, b: int): int {
    if a <= b then a else b
  }

  /** `query.offset(skip).limit(limit)`: at most `limit` rows, starting at row `skip`. */
  function Paginate<T>(s: seq<T>, skip: nat, limit: nat): (r: seq<T>)
    ensures |r| <= limit
    ensures |r| == if skip >= |s| then 0 else Min(limit, |s| - skip)
    ensures forall i :: 0 <= i < |r| ==> r[i] == s[skip + i]
  {
    var from := Min(skip, |s|);
    var to := Min(skip + limit, |s|);
    s[from..to]
  }

  /** A page of a reordering of `t` holds only rows of `t`. */
  lemma PageRowsFrom<T>(s: seq<T>, t: seq<T>, skip: nat, limit: nat)
    requires multiset(s) == multiset(t)
    ensures forall x :: x in Paginate(s, skip, limit) ==> x in t
  {
    var p := Paginate(s, skip, limit);
    forall x | x in p ensures x in t {
      var i :| 0 <= i < |p| && p[i] == x;
      assert s[skip + i] == x;
      assert x in multiset(s);
    }
  }

  /** Consecutive pages tile the result: the page at `skip` of size `a`, then the page right after it of size `b`, is the page at `skip` of size `a + b`. */
  lemma PaginateSplit<T>(s: seq<T>, skip: nat, a: nat, b: nat)
    ensures Paginate(s, skip, a) + Paginate(s, skip + a, b) == Paginate(s, skip, a + b)
  {
    var left, right, whole := Paginate(s, skip, a), Paginate(s, skip + a, b), Paginate(s, skip, a + b);
    assert |left| + |right| == |whole|;
    forall i | 0 <= i < |whole| ensures (left + right)[i] == whole[i] {
      if i >= |left| {
        assert right[i - |left|] == s[skip + a + (i - |left|)];
      }
    }
  }
}
