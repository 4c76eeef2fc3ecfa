/** What the document store does for a route handler: select the documents a filter
    keeps, count and sum over them, find one by id, order by one field and cut out
    one page with `skip` and `limit`. A collection is a sequence in natural
    (insertion) order. */
module Query {
  import opened Common

  // ---------------------------------------------------------------------------
  // Selection, counting, summing
  // ---------------------------------------------------------------------------

  /** `find(query)`: the documents `keep` accepts, in natural order. */
  function Filter<T>(s: seq<T>, keep: T -> bool): (r: seq<T>)
    ensures |r| <= |s|
    ensures forall i :: 0 <= i < |r| ==> keep(r[i]) && r[i] in s
    ensures forall i :: 0 <= i < |s| && keep(s[i]) ==> s[i] in r
  {
    if s == [] then []
    else (if keep(s[0]) then [s[0]] else []) + Filter(s[1..], keep)
  }

  /** `$sum: { $cond: [p, 1, 0] }` over a collection. */
  function CountIf<T>(s: seq<T>, p: T -> bool): (n: nat)
    ensures n <= |s|
  {
    if s == [] then 0 else (if p(s[0]) then 1 else 0) + CountIf(s[1..], p)
  }

  /** `$sum: '$field'` over a collection. */
  function SumOf<T>(s: seq<T>, f: T -> int): int {
    if s == [] then 0 else f(s[0]) + SumOf(s[1..], f)
  }

  /** The aggregation count and the count of the documents `find` returns agree. */
  lemma {:induction false} CountIfIsFilterLength<T>(s: seq<T>, p: T -> bool)
    ensures CountIf(s, p) == |Filter(s, p)|
  {
    if s != [] {
      CountIfIsFilterLength(s[1..], p);
    }
  }

  /** A filter that keeps every document returns the collection unchanged. */
  lemma {:induction false} FilterKeepsAll<T>(s: seq<T>, keep: T -> bool)
    requires forall i :: 0 <= i < |s| ==> keep(s[i])
    ensures Filter(s, keep) == s
  {
    if s != [] {
      FilterKeepsAll(s[1..], keep);
    }
  }

  /** Sums split over concatenation. */
  lemma {:induction false} SumOfAppend<T>(a: seq<T>, b: seq<T>, f: T -> int)
    ensures SumOf(a + b, f) == SumOf(a, f) + SumOf(b, f)
  {
    if a != [] {
      assert (a + b)[0] == a[0] && (a + b)[1..] == a[1..] + b;
      SumOfAppend(a[1..], b, f);
    } else {
      assert a + b == b;
    }
  }

  /** Counts split over concatenation. */
  lemma {:induction false} CountIfAppend<T>(a: seq<T>, b: seq<T>, p: T -> bool)
    ensures CountIf(a + b, p) == CountIf(a, p) + CountIf(b, p)
  {
    if a != [] {
      assert (a + b)[0] == a[0] && (a + b)[1..] == a[1..] + b;
      CountIfAppend(a[1..], b, p);
    } else {
      assert a + b == b;
    }
  }

  // ---------------------------------------------------------------------------
  // Lookup by id
  // ---------------------------------------------------------------------------

  /** `findById`: the position of the document whose id is `id`, if any. */
  function IndexOf<T>(s: seq<T>, idOf: T -> Id, id: Id): (r: Option<nat>)
    ensures r.Some? ==> r.value < |s| && idOf(s[r.value]) == id
    ensures r.None? <==> forall i :: 0 <= i < |s| ==> idOf(s[i]) != id
  {
    if s == [] then None
    else if idOf(s[0]) == id then Some(0)
    else match IndexOf(s[1..], idOf, id)
      case None => None
      case Some(k) => Some(k + 1)
  }

  ghost predicate UniqueIds<T>(s: seq<T>, idOf: T -> Id) {
    forall i, j :: 0 <= i < j < |s| ==> idOf(s[i]) != idOf(s[j])
  }

  function RemoveAt<T>(s: seq<T>, k: nat): (r: seq<T>)
    requires k < |s|
    ensures |r| == |s| - 1
  {
    s[..k] + s[k + 1..]
  }

  /** Appending a document with a fresh id keeps ids unique, and the new id is found. */
  lemma AppendFresh<T>(s: seq<T>, idOf: T -> Id, x: T)
    requires UniqueIds(s, idOf) && IndexOf(s, idOf, idOf(x)).None?
    ensures UniqueIds(s + [x], idOf)
    ensures IndexOf(s + [x], idOf, idOf(x)) == Some(|s|)
  {
    var t := s + [x];
    assert t[|s|] == x;
    var r := IndexOf(t, idOf, idOf(x));
    assert r.Some?;
  }

  /** Removing the document with a unique id leaves no document with that id. */
  lemma RemoveUnique<T>(s: seq<T>, idOf: T -> Id, k: nat)
    requires UniqueIds(s, idOf) && k < |s|
    ensures UniqueIds(RemoveAt(s, k), idOf)
    ensures IndexOf(RemoveAt(s, k), idOf, idOf(s[k])).None?
  {
    var r := RemoveAt(s, k);
    assert forall i :: 0 <= i < |r| ==> r[i] == if i < k then s[i] else s[i + 1];
  }

  /** Replacing a document by one with the same id keeps ids unique. */
  lemma ReplaceKeepsUnique<T>(s: seq<T>, idOf: T -> Id, k: nat, x: T)
    requires UniqueIds(s, idOf) && k < |s| && idOf(x) == idOf(s[k])
    ensures UniqueIds(s[k := x], idOf)
  {
  }

  // ---------------------------------------------------------------------------
  // Pagination
  // ---------------------------------------------------------------------------

  function Min(a: int, b: int): int { if a <= b then a else b }
  function Abs(a: int): nat { if a < 0 then -a else a }

  /** `.skip(skip).limit(limit)` on an ordered result: a limit of 0 means no limit
      and a negative limit `n` returns |n| documents, as the driver treats them. */
  function Paginate<T>(s: seq<T>, skip: nat, limit: int): (r: seq<T>)
    ensures limit != 0 ==> |r| <= Abs(limit)
    ensures Min(skip, |s|) + |r| <= |s|
    ensures r == s[Min(skip, |s|)..Min(skip, |s|) + |r|]
    ensures limit != 0 ==> |r| == Min(Abs(limit), |s| - Min(skip, |s|))
    ensures limit == 0 ==> r == s[Min(skip, |s|)..]
  {
    var rest := s[Min(skip, |s|)..];
    if limit == 0 || Abs(limit) >= |rest| then rest else rest[..Abs(limit)]
  }

  /** A page is the slice that starts at the skip, no longer than a positive limit,
      and empty once the skip reaches the end. */
  lemma PageIsSlice<T>(s: seq<T>, skip: nat, limit: int)
    ensures var d := Paginate(s, skip, limit);
            && (limit > 0 ==> |d| <= limit)
            && (skip <= |s| ==> d == s[skip..skip + |d|])
            && (skip >= |s| ==> d == [])
  {
  }

  /** Where page k ≥ 1 of size n starts: (k−1)·n documents are skipped. */
  function PageStart(k: nat, n: nat): nat
    requires k > 0
  {
    (k - 1) * n
  }

  /** Where page m of size n ends: m·n documents are skipped or listed. */
  function PageEnd(m: nat, n: nat): nat {
    m * n
  }

  /** The concatenation of pages 1 to m of size n. */
  function Pages<T>(s: seq<T>, n: nat, m: nat): seq<T>
    requires n > 0
  {
    if m == 0 then [] else Pages(s, n, m - 1) + Paginate(s, PageStart(m, n), n)
  }

  lemma MulStep(m: nat, n: nat)
    requires m > 0
    ensures m * n == (m - 1) * n + n
  {
  }

  /** The documents before a page, followed by the page, are the documents up to the
      end of the page. */
  lemma PageExtendsPrefix<T>(s: seq<T>, k: nat, n: nat)
    requires n > 0
    ensures s[..Min(k, |s|)] + Paginate(s, k, n) == s[..Min(k + n, |s|)]
  {
    var lo := Min(k, |s|);
    var hi := Min(k + n, |s|);
    var page := Paginate(s, k, n);
    assert lo + |page| == hi;
    assert s[..lo] + s[lo..hi] == s[..hi];
  }

  /** Pages 1 to m together are exactly the first m·n documents, with nothing
      repeated or skipped. */
  lemma {:induction false} PagesArePrefix<T>(s: seq<T>, n: nat, m: nat)
    requires n > 0
    ensures Pages(s, n, m) == s[..Min(m * n, |s|)]
  {
    if m > 0 {
      PagesArePrefix(s, n, m - 1);
      var k := (m - 1) * n;
      MulStep(m, n);
      PageExtendsPrefix(s, k, n);
    }
  }

  /** Pages 1 to m of a paged listing, one after the other. */
  function Concat<T>(page: nat -> seq<T>, m: nat): seq<T> {
    if m == 0 then [] else Concat(page, m - 1) + page(m)
  }

  /** A listing whose page k is the k-th window of size n over s returns, page
      after page, the pages of s. */
  lemma {:induction false} ConcatOfWindows<T>(s: seq<T>, n: nat, page: nat -> seq<T>, m: nat)
    requires n > 0
    requires forall k: nat :: 0 < k <= m ==> page(k) == Paginate(s, PageStart(k, n), n)
    ensures Concat(page, m) == Pages(s, n, m)
  {
    if m > 0 {
      ConcatOfWindows(s, n, page, m - 1);
    }
  }

  /** Such a listing, walked from page 1 to page m, returns the first m·n documents
      of s, nothing repeated and nothing skipped. */
  lemma WalkWindows<T>(s: seq<T>, n: nat, page: nat -> seq<T>, m: nat)
    requires n > 0
    requires forall k: nat :: 0 < k <= m ==> page(k) == Paginate(s, PageStart(k, n), n)
    ensures Concat(page, m) == s[..Min(PageEnd(m, n), |s|)]
  {
    ConcatOfWindows(s, n, page, m);
    PagesArePrefix(s, n, m);
  }

  /** Walking pages 1 to ⌈|s|/n⌉ returns every matching document exactly once. */
  lemma AllPagesCoverAll<T>(s: seq<T>, n: nat)
    requires n > 0
    ensures Pages(s, n, (|s| + n - 1) / n) == s
  {
    var m := (|s| + n - 1) / n;
    var rem := (|s| + n - 1) % n;
    assert m * n + rem == |s| + n - 1;
    assert m * n >= |s|;
    PagesArePrefix(s, n, m);
  }

  /** What a list handler returns: one page, the number of all matches, and the
      page and page size it was asked for. */
  datatype ListPage<T> = ListPage(data: seq<T>, total: nat, page: int, pageSize: int)

  /** `(Number(page) - 1) * Number(pageSize)`. */
  function SkipFor(page: int, pageSize: int): int {
    (page - 1) * pageSize
  }

  // ---------------------------------------------------------------------------
  // Sorting on one field
  // ---------------------------------------------------------------------------

  /** The value of the sort field in one document: absent, a number (numbers and
      dates), or a string. */
  datatype Key = Missing | Num(n: int) | Text(t: string)

  /** Binary string order (code point by code point). */
  predicate TextLe(a: string, b: string)
    decreases |a|
  {
    a == [] || (b != [] && (a[0] < b[0] || (a[0] == b[0] && TextLe(a[1..], b[1..]))))
  }

  /** The store's order between values of one field: missing sorts first, then
      numbers, then strings. */
  predicate KeyLe(a: Key, b: Key) {
    match (a, b)
    case (Missing, _) => true
    case (Num(_), Missing) => false
    case (Num(x), Num(y)) => x <= y
    case (Num(_), Text(_)) => true
    case (Text(_), Missing) => false
    case (Text(_), Num(_)) => false
    case (Text(x), Text(y)) => TextLe(x, y)
  }

  lemma {:induction false} TextLeTotal(a: string, b: string)
    ensures TextLe(a, b) || TextLe(b, a)
  {
    if a != [] && b != [] && a[0] == b[0] {
      TextLeTotal(a[1..], b[1..]);
    }
  }

  lemma {:induction false} TextLeTransitive(a: string, b: string, c: string)
    requires TextLe(a, b) && TextLe(b, c)
    ensures TextLe(a, c)
  {
    if a != [] && b != [] && c != [] && a[0] == b[0] && b[0] == c[0] {
      TextLeTransitive(a[1..], b[1..], c[1..]);
    }
  }

  lemma KeyLeTotal(a: Key, b: Key)
    ensures KeyLe(a, b) || KeyLe(b, a)
  {
    if a.Text? && b.Text? {
      TextLeTotal(a.t, b.t);
    }
  }

  lemma KeyLeTransitive(a: Key, b: Key, c: Key)
    requires KeyLe(a, b) && KeyLe(b, c)
    ensures KeyLe(a, c)
  {
    if a.Text? && b.Text? && c.Text? {
      TextLeTransitive(a.t, b.t, c.t);
    }
  }

  /** `a` may come before `b` under sort direction +1 (`desc` false) or -1 (`desc` true). */
  predicate InOrder(desc: bool, a: Key, b: Key) {
    if desc then KeyLe(b, a) else KeyLe(a, b)
  }

  lemma InOrderTotal(desc: bool, a: Key, b: Key)
    ensures InOrder(desc, a, b) || InOrder(desc, b, a)
  {
    KeyLeTotal(a, b);
  }

  lemma InOrderTransitive(desc: bool, a: Key, b: Key, c: Key)
    requires InOrder(desc, a, b) && InOrder(desc, b, c)
    ensures InOrder(desc, a, c)
  {
    if desc { KeyLeTransitive(c, b, a); } else { KeyLeTransitive(a, b, c); }
  }

  ghost predicate SortedBy<T>(s: seq<T>, key: T -> Key, desc: bool) {
    forall i, j :: 0 <= i < j < |s| ==> InOrder(desc, key(s[i]), key(s[j]))
  }

  function Insert<T>(x: T, s: seq<T>, key: T -> Key, desc: bool): (r: seq<T>)
    ensures |r| == |s| + 1
    ensures multiset(r) == multiset(s) + multiset{x}
  {
    if s == [] || InOrder(desc, key(x), key(s[0])) then [x] + s
    else
      assert s == [s[0]] + s[1..];
      [s[0]] + Insert(x, s[1..], key, desc)
  }

  lemma {:induction false} InsertSorted<T>(x: T, s: seq<T>, key: T -> Key, desc: bool)
    requires SortedBy(s, key, desc)
    ensures SortedBy(Insert(x, s, key, desc), key, desc)
  {
    var r := Insert(x, s, key, desc);
    if s == [] {
    } else if InOrder(desc, key(x), key(s[0])) {
      forall i, j | 0 <= i < j < |r| ensures InOrder(desc, key(r[i]), key(r[j])) {
        if i == 0 && j > 1 {
          InOrderTransitive(desc, key(x), key(s[0]), key(s[j - 1]));
        }
      }
    } else {
      InsertSorted(x, s[1..], key, desc);
      InOrderTotal(desc, key(x), key(s[0]));
      var t := Insert(x, s[1..], key, desc);
      forall j | 0 <= j < |t| ensures InOrder(desc, key(s[0]), key(t[j])) {
        assert t[j] in multiset(t);
        assert t[j] in multiset(s[1..]) + multiset{x};
        if t[j] != x {
          assert t[j] in s[1..];
          var k :| 0 <= k < |s[1..]| && s[1..][k] == t[j];
          assert s[k + 1] == t[j];
        }
      }
    }
  }

  /** `.sort({ field: direction })`: a reordering of the documents in which every
      document's key is in order with every later one's. Ties keep natural order. */
  function SortBy<T>(s: seq<T>, key: T -> Key, desc: bool): (r: seq<T>)
    ensures |r| == |s|
    ensures multiset(r) == multiset(s)
    ensures SortedBy(r, key, desc)
  {
    if s == [] then []
    else
      var tail := SortBy(s[1..], key, desc);
      InsertSorted(s[0], tail, key, desc);
      assert s == [s[0]] + s[1..];
      Insert(s[0], tail, key, desc)
  }

  /** A slice of a sorted sequence is sorted. */
  lemma SortedSliceIsSorted<T>(s: seq<T>, key: T -> Key, desc: bool, lo: nat, hi: nat)
    requires lo <= hi <= |s| && SortedBy(s, key, desc)
    ensures SortedBy(s[lo..hi], key, desc)
  {
    var t := s[lo..hi];
    forall i, j | 0 <= i < j < |t| ensures InOrder(desc, key(t[i]), key(t[j])) {
      assert t[i] == s[lo + i] && t[j] == s[lo + j];
    }
  }

  /** Sorting the matches keeps only documents of `s` that pass the filter. */
  lemma SortedMatchesPass<T>(s: seq<T>, keep: T -> bool, key: T -> Key, desc: bool)
    ensures forall x :: x in SortBy(Filter(s, keep), key, desc) ==> x in s && keep(x)
  {
    var m := Filter(s, keep);
    var sorted := SortBy(m, key, desc);
    forall x | x in sorted ensures x in s && keep(x) {
      assert x in multiset(m);
      var j :| 0 <= j < |m| && m[j] == x;
    }
  }

  /** A page of the sorted matches (filter, then sort, then skip and limit) holds only
      documents of `s` that pass the filter, and is itself in sorted order. */
  lemma SortedPage<T>(s: seq<T>, keep: T -> bool, key: T -> Key, desc: bool, skip: nat, limit: int)
    ensures var d := Paginate(SortBy(Filter(s, keep), key, desc), skip, limit);
            && (forall i :: 0 <= i < |d| ==> d[i] in s && keep(d[i]))
            && SortedBy(d, key, desc)
  {
    var sorted := SortBy(Filter(s, keep), key, desc);
    var d := Paginate(sorted, skip, limit);
    var lo := Min(skip, |sorted|);
    assert d == sorted[lo..lo + |d|];
    SortedSliceIsSorted(sorted, key, desc, lo, lo + |d|);
    SortedMatchesPass(s, keep, key, desc);
    SliceElements(sorted, lo, lo + |d|);
  }

  /** Every element of a slice is an element of the sequence. */
  lemma SliceElements<T>(s: seq<T>, lo: nat, hi: nat)
    requires lo <= hi <= |s|
    ensures forall i :: 0 <= i < hi - lo ==> s[lo..hi][i] in s
  {
    forall i | 0 <= i < hi - lo ensures s[lo..hi][i] in s {
      assert s[lo..hi][i] == s[lo + i];
    }
  }

  /** `sortOrder === 'desc' ? -1 : 1`, where an absent sortOrder defaults to 'desc'. */
  function SortDirection(sortOrder: Option<string>): (d: int)
    ensures d == -1 || d == 1
    ensures d == -1 <==> sortOrder.GetOr("desc") == "desc"
  {
    if sortOrder.GetOr("desc") == "desc" then -1 else 1
  }
}
