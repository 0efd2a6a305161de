/** The routine-checks list page (src/pages/ChecksList.tsx): the search,
    state and department filters, the in-place sort of the filtered copy,
    and the twenty-per-page pagination with its page counter. Check dates
    are their millisecond timestamps. */
module ChecksList {
  import opened Common

  datatype Check = Check(id: nat, deviceName: string, checkerName: string, state: string,
                         departmentId: Option<nat>, checkDate: int)

  datatype SortBy = DateDesc | DateAsc | ByState

  const PAGE_SIZE: nat := 20

  /** The search box: it applies only when the trimmed term is non-empty,
      and then the lower-cased term (untrimmed) must occur in the device
      name or the checker name, lower-cased. */
  predicate SearchKeeps(c: Check, term: string)
  {
    IsBlank(term) || Contains(Lower(c.deviceName), Lower(term)) || Contains(Lower(c.checkerName), Lower(term))
  }

  /** The three filter controls: the search box, the state and the
      department ("all" turns the last two off). */
  datatype Filters = Filters(term: string, state: string, department: string)

  const NO_FILTERS: Filters := Filters("", "all", "all")

  /** All three filters. */
  predicate PassesFilters(c: Check, f: Filters)
  {
    && SearchKeeps(c, f.term)
    && (f.state == "all" || c.state == f.state)
    && (f.department == "all" || IdText(c.departmentId) == f.department)
  }

  function Filtered(checks: seq<Check>, f: Filters): (r: seq<Check>)
    ensures |r| <= |checks|
    ensures multiset(r) <= multiset(checks)
  {
    if checks == [] then []
    else
      assert checks == [checks[0]] + checks[1..];
      (if PassesFilters(checks[0], f) then [checks[0]] else [])
      + Filtered(checks[1..], f)
  }

  /** The filtered list holds exactly the checks that pass all three
      filters. */
  lemma {:induction false} FilteredMembers(checks: seq<Check>, f: Filters)
    ensures forall c :: c in Filtered(checks, f) <==> c in checks && PassesFilters(c, f)
  {
    if checks != [] {
      FilteredMembers(checks[1..], f);
      assert checks == [checks[0]] + checks[1..];
    }
  }

  /** Each check that passes the filters keeps all its copies, and no other
      check has any. */
  lemma {:induction false} FilteredCounts(checks: seq<Check>, f: Filters)
    ensures forall c :: multiset(Filtered(checks, f))[c] == if PassesFilters(c, f) then multiset(checks)[c] else 0
  {
    if checks != [] {
      FilteredCounts(checks[1..], f);
      assert checks == [checks[0]] + checks[1..];
    }
  }

  /** With every filter off, nothing is dropped. */
  lemma {:induction false} NoFilterKeepsAll(checks: seq<Check>)
    ensures Filtered(checks, NO_FILTERS) == checks
  {
    if checks != [] {
      NoFilterKeepsAll(checks[1..]);
      assert checks == [checks[0]] + checks[1..];
    }
  }

  /** The state order of the "state" sort: excellent 1, good and average 2,
      poor and needs_maintenance 3, anything else 4. */
  function StateRank(state: string): (r: int)
    ensures 1 <= r <= 4
    ensures r == 1 <==> state == "excellent"
    ensures r == 2 <==> state == "good" || state == "average"
    ensures r == 3 <==> state == "poor" || state == "needs_maintenance"
  {
    if state == "excellent" then 1
    else if state == "good" || state == "average" then 2
    else if state == "poor" || state == "needs_maintenance" then 3
    else 4
  }

  /** The comparator is `key(a) - key(b)`: the sort is ascending in this key. */
  function SortKey(c: Check, order: SortBy): int
  {
    match order
    case DateDesc => -c.checkDate
    case DateAsc => c.checkDate
    case ByState => StateRank(c.state)
  }

  predicate SortedBy(s: seq<Check>, order: SortBy)
  {
    forall i, j :: 0 <= i < j < |s| ==> SortKey(s[i], order) <= SortKey(s[j], order)
  }

  /** The checks of s whose sort key is k, in their order in s. */
  function WithKey(s: seq<Check>, k: int, order: SortBy): seq<Check>
  {
    if s == [] then [] else (if SortKey(s[0], order) == k then [s[0]] else []) + WithKey(s[1..], k, order)
  }

  /** The sort is stable: checks with equal keys keep their relative order. */
  ghost predicate SameTies(s: seq<Check>, t: seq<Check>, order: SortBy)
  {
    forall k :: WithKey(s, k, order) == WithKey(t, k, order)
  }

  lemma {:induction false} WithKeyAppend(s: seq<Check>, t: seq<Check>, k: int, order: SortBy)
    ensures WithKey(s + t, k, order) == WithKey(s, k, order) + WithKey(t, k, order)
  {
    if s != [] {
      var head := if SortKey(s[0], order) == k then [s[0]] else [];
      assert (s + t)[0] == s[0] && (s + t)[1..] == s[1..] + t;
      assert WithKey(s + t, k, order) == head + WithKey(s[1..] + t, k, order);
      WithKeyAppend(s[1..], t, k, order);
      assert head + (WithKey(s[1..], k, order) + WithKey(t, k, order))
          == (head + WithKey(s[1..], k, order)) + WithKey(t, k, order);
    } else {
      assert s + t == t;
    }
  }

  /** Exchanging two neighbours with different keys changes no check's
      place among the checks of its own key. */
  lemma SwapKeepsTies(s: seq<Check>, j: int, order: SortBy, orig: seq<Check>)
    requires 0 < j < |s| && SortKey(s[j - 1], order) != SortKey(s[j], order)
    requires SameTies(s, orig, order)
    ensures SameTies(s[j - 1 := s[j]][j := s[j - 1]], orig, order)
  {
    var t := s[j - 1 := s[j]][j := s[j - 1]];
    var pre, post := s[..j - 1], s[j + 1..];
    assert s == pre + ([s[j - 1], s[j]] + post);
    assert t == pre + ([s[j], s[j - 1]] + post);
    forall k
      ensures WithKey(t, k, order) == WithKey(orig, k, order)
    {
      WithKeyAppend(pre, [s[j - 1], s[j]] + post, k, order);
      WithKeyAppend(pre, [s[j], s[j - 1]] + post, k, order);
      WithKeyAppend([s[j - 1], s[j]], post, k, order);
      WithKeyAppend([s[j], s[j - 1]], post, k, order);
      PairTies(s[j - 1], s[j], k, order);
    }
  }

  /** Two checks of different keys contribute the same to any key's
      subsequence in either order. */
  lemma PairTies(x: Check, y: Check, k: int, order: SortBy)
    requires SortKey(x, order) != SortKey(y, order)
    ensures WithKey([x, y], k, order) == WithKey([y, x], k, order)
  {
    assert [x, y][1..] == [y] && [y, x][1..] == [x];
    assert WithKey([y], k, order) == (if SortKey(y, order) == k then [y] else []);
    assert WithKey([x], k, order) == (if SortKey(x, order) == k then [x] else []);
  }

  /** `result.sort(...)`: an insertion sort by adjacent swaps, in place,
      stable like `Array.prototype.sort`. */
  method SortChecks(a: array<Check>, order: SortBy)
    modifies a
    ensures SortedBy(a[..], order)
    ensures multiset(a[..]) == multiset(old(a[..]))
    ensures SameTies(a[..], old(a[..]), order)
  {
    var i := 0;
    while i < a.Length
      invariant 0 <= i <= a.Length
      invariant SortedBy(a[..i], order)
      invariant multiset(a[..]) == multiset(old(a[..]))
      invariant SameTies(a[..], old(a[..]), order)
    {
      SinkInto(a, i, order);
      i := i + 1;
    }
    assert a[..a.Length] == a[..];
  }

  /** Moves a[i] left past every larger key, so that a[..i+1] is sorted. */
  method SinkInto(a: array<Check>, i: int, order: SortBy)
    requires 0 <= i < a.Length
    requires SortedBy(a[..i], order)
    modifies a
    ensures SortedBy(a[..i + 1], order)
    ensures multiset(a[..]) == multiset(old(a[..]))
    ensures SameTies(a[..], old(a[..]), order)
  {
    var j := i;
    StartSink(a[..], i, order);
    while j > 0 && SortKey(a[j - 1], order) > SortKey(a[j], order)
      invariant 0 <= j <= i
      invariant SortedExcept(a[..], i, j, order) && BelowRest(a[..], i, j, order)
      invariant multiset(a[..]) == multiset(old(a[..]))
      invariant SameTies(a[..], old(a[..]), order)
    {
      ghost var before := a[..];
      SwapDown(a, j);
      SwapKeepsInvariant(before, a[..], i, j, order);
      SwapKeepsTies(before, j, order, old(a[..]));
      j := j - 1;
    }
    FinishSink(a[..], i, j, order);
  }

  /** The first i + 1 elements are in order, position j left aside. */
  predicate SortedExcept(s: seq<Check>, i: int, j: int, order: SortBy)
    requires 0 <= i < |s|
  {
    forall p, q :: 0 <= p < q <= i && p != j && q != j ==> SortKey(s[p], order) <= SortKey(s[q], order)
  }

  /** The element at j has a smaller key than every element after it, up
      to i. */
  predicate BelowRest(s: seq<Check>, i: int, j: int, order: SortBy)
    requires 0 <= j <= i < |s|
  {
    forall q :: j < q <= i ==> SortKey(s[j], order) < SortKey(s[q], order)
  }

  /** Before any swap the element at i is the one left aside, with nothing
      after it. */
  lemma StartSink(s: seq<Check>, i: int, order: SortBy)
    requires 0 <= i < |s| && SortedBy(s[..i], order)
    ensures SortedExcept(s, i, i, order) && BelowRest(s, i, i, order)
  {
    forall p, q | 0 <= p < q <= i && p != i && q != i
      ensures SortKey(s[p], order) <= SortKey(s[q], order)
    {
      assert s[p] == s[..i][p] && s[q] == s[..i][q];
    }
  }

  /** One swap of the sinking element with a larger left neighbour keeps
      both invariants, one position further left. */
  lemma SwapKeepsInvariant(s: seq<Check>, t: seq<Check>, i: int, j: int, order: SortBy)
    requires 0 < j <= i < |s| == |t|
    requires SortedExcept(s, i, j, order) && BelowRest(s, i, j, order)
    requires SortKey(s[j - 1], order) > SortKey(s[j], order)
    requires t == s[j - 1 := s[j]][j := s[j - 1]]
    ensures SortedExcept(t, i, j - 1, order) && BelowRest(t, i, j - 1, order)
  {
  }

  /** When the sinking element stops (at the front, or behind a key no
      larger than its own), the prefix up to i is sorted. */
  lemma FinishSink(s: seq<Check>, i: int, j: int, order: SortBy)
    requires 0 <= j <= i < |s|
    requires SortedExcept(s, i, j, order) && BelowRest(s, i, j, order)
    requires j == 0 || SortKey(s[j - 1], order) <= SortKey(s[j], order)
    ensures SortedBy(s[..i + 1], order)
  {
    forall p, q | 0 <= p < q <= i
      ensures SortKey(s[p], order) <= SortKey(s[q], order)
    {
      if q == j && p < j - 1 {
        assert SortKey(s[p], order) <= SortKey(s[j - 1], order);
      }
    }
  }

  /** Exchanges a[j - 1] and a[j]. */
  method SwapDown(a: array<Check>, j: int)
    requires 0 < j < a.Length
    modifies a
    ensures a[..] == old(a[..])[j - 1 := old(a[j])][j := old(a[j - 1])]
    ensures multiset(a[..]) == multiset(old(a[..]))
  {
    a[j - 1], a[j] := a[j], a[j - 1];
  }

  /** `filteredAndSortedChecks`: filter a copy, then sort it. */
  method FilterAndSort(checks: seq<Check>, f: Filters, order: SortBy)
    returns (r: seq<Check>)
    ensures multiset(r) == multiset(Filtered(checks, f))
    ensures SortedBy(r, order)
    ensures SameTies(r, Filtered(checks, f), order)
  {
    var kept := Filtered(checks, f);
    var a := new Check[|kept|](i requires 0 <= i < |kept| => kept[i]);
    assert a[..] == kept;
    SortChecks(a, order);
    r := a[..];
  }

  /** `Math.ceil(n / PAGE_SIZE)`. */
  function TotalPages(n: nat): (r: nat)
    ensures r * PAGE_SIZE >= n
    ensures n > 0 ==> (r - 1) * PAGE_SIZE < n
    ensures n == 0 <==> r == 0
  {
    (n + PAGE_SIZE - 1) / PAGE_SIZE
  }

  /** `slice(start, start + PAGE_SIZE)` with start = (page - 1) * PAGE_SIZE;
      slice clips at the end and gives nothing past it. */
  function PageOf(s: seq<Check>, page: nat): (r: seq<Check>)
    requires page >= 1
    ensures |r| <= PAGE_SIZE
    ensures (page - 1) * PAGE_SIZE >= |s| ==> r == []
    ensures (page - 1) * PAGE_SIZE < |s| ==> r == s[(page - 1) * PAGE_SIZE..Min(page * PAGE_SIZE, |s|)]
  {
    var start := (page - 1) * PAGE_SIZE;
    if start >= |s| then [] else s[start..Min(start + PAGE_SIZE, |s|)]
  }

  /** The "showing start - end of n" line. */
  function ShownRange(page: nat, n: nat): (r: (int, int))
    requires page >= 1
  {
    ((page - 1) * PAGE_SIZE + 1, Min(page * PAGE_SIZE, n))
  }

  /** On an existing page the line counts exactly the rows shown. */
  lemma ShownRangeCountsPage(s: seq<Check>, page: nat)
    requires 1 <= page <= TotalPages(|s|)
    ensures ShownRange(page, |s|).0 <= ShownRange(page, |s|).1
    ensures ShownRange(page, |s|).1 - ShownRange(page, |s|).0 + 1 == |PageOf(s, page)|
  {
  }

  /** The pages, in order, are the whole list. */
  lemma {:induction false} PagesCoverList(s: seq<Check>, pages: nat)
    requires pages * PAGE_SIZE <= |s|
    ensures s[..pages * PAGE_SIZE] == Pages(s, pages)
  {
    if pages > 0 {
      PagesCoverList(s, pages - 1);
      assert s[..pages * PAGE_SIZE] == s[..(pages - 1) * PAGE_SIZE] + s[(pages - 1) * PAGE_SIZE..pages * PAGE_SIZE];
    }
  }

  /** Pages 1 to n, concatenated. */
  function Pages(s: seq<Check>, n: nat): seq<Check>
  {
    if n == 0 then [] else Pages(s, n - 1) + PageOf(s, n)
  }

  /** The memoised list matches the filters, is sorted, and the page lies
      in [1, max(1, totalPages)]. */
  ghost predicate Consistent(checks: seq<Check>, f: Filters, order: SortBy, shown: seq<Check>, page: nat)
  {
    && multiset(shown) == multiset(Filtered(checks, f))
    && SortedBy(shown, order)
    && SameTies(shown, Filtered(checks, f), order)
    && 1 <= page <= Max(1, TotalPages(|shown|))
  }

  /** A freshly filtered and sorted list, on page 1, is consistent. */
  lemma FreshListConsistent(checks: seq<Check>, f: Filters, order: SortBy, sorted: seq<Check>)
    requires multiset(sorted) == multiset(Filtered(checks, f)) && SortedBy(sorted, order)
    requires SameTies(sorted, Filtered(checks, f), order)
    ensures Consistent(checks, f, order, sorted, 1)
  {
  }

  /** The state of the list page that changes step by step. */
  class ChecksView {
    var checks: seq<Check>
    var filters: Filters
    var sortBy: SortBy
    var shown: seq<Check>
    var currentPage: nat

    /** The view's fields are consistent. */
    ghost predicate Valid()
      reads this
    {
      Consistent(checks, filters, sortBy, shown, currentPage)
    }

    constructor (loaded: seq<Check>)
      ensures Valid()
      ensures checks == loaded && filters == NO_FILTERS
      ensures sortBy == DateDesc && currentPage == 1
    {
      checks, filters, sortBy, shown, currentPage := loaded, NO_FILTERS, DateDesc, [], 1;
      new;
      SetFilters(NO_FILTERS, DateDesc);
    }

    /** Any change of search, state, department or sort recomputes the list
        and resets the page to 1. */
    method SetFilters(f: Filters, order: SortBy)
      modifies this
      ensures Valid()
      ensures filters == f && sortBy == order
      ensures checks == old(checks) && currentPage == 1
    {
      var sorted := FilterAndSort(checks, f, order);
      FreshListConsistent(checks, f, order, sorted);
      filters, sortBy := f, order;
      shown, currentPage := sorted, 1;
    }

    /** The rows of the current page. */
    function Paginated(): (r: seq<Check>)
      reads this
      ensures |r| <= PAGE_SIZE
      ensures currentPage >= 1 && (currentPage - 1) * PAGE_SIZE < |shown| ==>
                r == shown[(currentPage - 1) * PAGE_SIZE..Min(currentPage * PAGE_SIZE, |shown|)]
    {
      if currentPage >= 1 then PageOf(shown, currentPage) else []
    }

    /** The previous-page button. */
    method Prev()
      requires Valid()
      modifies this
      ensures Valid()
      ensures currentPage == Max(1, old(currentPage) - 1)
      ensures shown == old(shown) && checks == old(checks) && sortBy == old(sortBy)
      ensures filters == old(filters)
    {
      currentPage := Max(1, currentPage - 1);
    }

    /** The next-page button, rendered only when there is more than one page. */
    method Next()
      requires Valid() && TotalPages(|shown|) > 1
      modifies this
      ensures Valid()
      ensures currentPage == Min(TotalPages(|shown|), old(currentPage) + 1)
      ensures shown == old(shown) && checks == old(checks) && sortBy == old(sortBy)
      ensures filters == old(filters)
    {
      currentPage := Min(TotalPages(|shown|), currentPage + 1);
    }
  }
}
