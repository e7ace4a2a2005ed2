/**
 * The case table of the practitioner dashboard: filtering by search text,
 * status and urgency; sorting by a column with a direction that toggles;
 * pagination with bounded page moves; the statistics counters; and the HTML
 * escaping every cell goes through.  Cases arrive from the back end; the
 * model starts where a list of cases has been received.
 */
module Dashboard {
  import opened Wrappers
  import opened Strings
  import opened Seqs

  /** A case row: column name to cell text. */
  type Case = map<string, string>

  /** `c[column] || ''`: a missing cell reads as the empty text. */
  function Cell(c: Case, column: string): string {
    if column in c then c[column] else ""
  }

  /** The search box: a non-empty cell whose lower-cased text contains `search`. */
  predicate CellHas(c: Case, column: string, search: string) {
    Cell(c, column) != "" && Contains(LowerStr(Cell(c, column)), search)
  }

  /** The three conditions of the `applyFilters` callback; `search` is already lower-cased. */
  predicate MatchesFilters(c: Case, search: string, status: string, urgency: string) {
    && (search == "" || CellHas(c, "Case ID", search) || CellHas(c, "Name", search) || CellHas(c, "Email", search))
    && (status == "" || Cell(c, "Status") == status)
    && (urgency == "" || Cell(c, "Urgency") == urgency)
  }

  function Matches(search: string, status: string, urgency: string): Case -> bool {
    (c: Case) => MatchesFilters(c, search, status, urgency)
  }

  /** The filtered list holds exactly the matching cases, each as often as in
      the full list, in their original order. */
  lemma FilteredExactly(all: seq<Case>, search: string, status: string, urgency: string, c: Case)
    ensures var r := Filter(all, Matches(search, status, urgency));
      && (c in r ==> MatchesFilters(c, search, status, urgency))
      && (MatchesFilters(c, search, status, urgency) ==> multiset(r)[c] == multiset(all)[c])
  {
    var r := Filter(all, Matches(search, status, urgency));
    if c in r {
      var i :| 0 <= i < |r| && r[i] == c;
    }
    if MatchesFilters(c, search, status, urgency) {
      FilterKeepsMatches(all, Matches(search, status, urgency), c);
    }
  }

  /** With every filter empty, the whole list is shown. */
  lemma EmptyFiltersKeepAll(all: seq<Case>)
    ensures Filter(all, Matches("", "", "")) == all
  {
    FilterKeepsAll(all, Matches("", "", ""));
  }

  /** A status filter keeps exactly the cases with that status. */
  lemma StatusFilterExact(all: seq<Case>, status: string)
    requires status != ""
    ensures var r := Filter(all, Matches("", status, ""));
      (forall i :: 0 <= i < |r| ==> Cell(r[i], "Status") == status)
      && |r| == |Filter(all, (c: Case) => Cell(c, "Status") == status)|
  {
    FilterSame(all, Matches("", status, ""), (c: Case) => Cell(c, "Status") == status);
  }

  lemma {:induction false} FilterSame<T>(s: seq<T>, p: T -> bool, q: T -> bool)
    requires forall x :: p(x) == q(x)
    ensures Filter(s, p) == Filter(s, q)
  {
    if s != [] {
      FilterSame(s[1..], p, q);
    }
  }

  /** `a < b` on strings: lexicographic order of the characters. */
  function StrLess(a: string, b: string): bool {
    if b == [] then false
    else if a == [] then true
    else if a[0] != b[0] then a[0] < b[0]
    else StrLess(a[1..], b[1..])
  }

  lemma {:induction false} StrLessIrreflexive(a: string)
    ensures !StrLess(a, a)
  {
    if a != [] {
      StrLessIrreflexive(a[1..]);
    }
  }

  lemma {:induction false} StrLessAsymmetric(a: string, b: string)
    ensures !(StrLess(a, b) && StrLess(b, a))
  {
    if a != [] && b != [] && a[0] == b[0] {
      StrLessAsymmetric(a[1..], b[1..]);
    }
  }

  /** Two different strings are ordered one way or the other. */
  lemma {:induction false} StrLessTotal(a: string, b: string)
    ensures a == b || StrLess(a, b) || StrLess(b, a)
  {
    if a != [] && b != [] && a[0] == b[0] {
      StrLessTotal(a[1..], b[1..]);
      if a[1..] == b[1..] {
        assert a == [a[0]] + a[1..] && b == [b[0]] + b[1..];
      }
    }
  }

  lemma {:induction false} StrLessTransitive(a: string, b: string, c: string)
    requires StrLess(a, b) && StrLess(b, c)
    ensures StrLess(a, c)
  {
    if a != [] && a[0] == b[0] && b[0] == c[0] {
      StrLessTransitive(a[1..], b[1..], c[1..]);
    }
  }

  /** `a <= b` on strings, as the comparator reads it: not `a > b`. */
  predicate StrLe(a: string, b: string) {
    !StrLess(b, a)
  }

  lemma StrLeTotal(a: string, b: string)
    ensures StrLe(a, b) || StrLe(b, a)
  {
    StrLessAsymmetric(a, b);
  }

  lemma StrLeTransitive(a: string, b: string, c: string)
    requires StrLe(a, b) && StrLe(b, c)
    ensures StrLe(a, c)
  {
    if StrLess(c, a) {
      StrLessTotal(a, b);
      if a == b {
      } else {
        StrLessTransitive(c, a, b);
      }
    }
  }

  /** The `sortTable` comparator as "a may stay in front of b": its result
      (`comparison`, negated when descending) is not positive. */
  function ColumnLe(column: string, ascending: bool): (Case, Case) -> bool {
    (a: Case, b: Case) =>
      if ascending then StrLe(Cell(a, column), Cell(b, column)) else StrLe(Cell(b, column), Cell(a, column))
  }

  /** The comparator is a total preorder on every list. */
  lemma ColumnLePreorder(column: string, ascending: bool, s: seq<Case>)
    ensures PreorderOn(ColumnLe(column, ascending), s)
  {
    var le := ColumnLe(column, ascending);
    forall x, y | x in s && y in s ensures le(x, y) || le(y, x) {
      StrLeTotal(Cell(x, column), Cell(y, column));
    }
    forall x, y, z | x in s && y in s && z in s && le(x, y) && le(y, z) ensures le(x, z) {
      if ascending {
        StrLeTransitive(Cell(x, column), Cell(y, column), Cell(z, column));
      } else {
        StrLeTransitive(Cell(z, column), Cell(y, column), Cell(x, column));
      }
    }
  }

  /** The list `filteredCases.sort(...)` leaves. */
  function SortByColumn(s: seq<Case>, column: string, ascending: bool): (r: seq<Case>)
    ensures multiset(r) == multiset(s)
  {
    StableSort(s, ColumnLe(column, ascending))
  }

  /** The sorted list is ordered by the column text, ascending or descending. */
  lemma SortByColumnOrdered(s: seq<Case>, column: string, ascending: bool)
    ensures var r := SortByColumn(s, column, ascending);
      forall i, j :: 0 <= i < j < |r| ==>
        if ascending then StrLe(Cell(r[i], column), Cell(r[j], column))
        else StrLe(Cell(r[j], column), Cell(r[i], column))
  {
    ColumnLePreorder(column, ascending, s);
    StableSortSorted(s, ColumnLe(column, ascending));
  }

  /** `Math.ceil(n / size)`. */
  function CeilPages(n: nat, size: nat): (r: nat)
    requires size >= 1
    ensures (r - 1) * size < n <= r * size || (n == 0 && r == 0)
  {
    (n + size - 1) / size
  }

  /** `Math.ceil(n / size) || 1`: the page count shown, at least one. */
  function MaxPages(n: nat, size: nat): (r: nat)
    requires size >= 1
    ensures r >= 1
  {
    if CeilPages(n, size) == 0 then 1 else CeilPages(n, size)
  }

  /** `cases.slice((page - 1) * size, (page - 1) * size + size)`. */
  function PageOf(cases: seq<Case>, page: nat, size: nat): (r: seq<Case>)
    requires page >= 1 && size >= 1
    ensures |r| <= size
    ensures forall k :: 0 <= k < |r| ==> (page - 1) * size + k < |cases| && r[k] == cases[(page - 1) * size + k]
  {
    var start := (page - 1) * size;
    if start >= |cases| then []
    else if start + size <= |cases| then cases[start..start + size]
    else cases[start..]
  }

  /** Every case lies on exactly one page: case `i` is row `i % size` of page `i / size + 1`. */
  lemma PageCovers(cases: seq<Case>, size: nat, i: nat)
    requires size >= 1 && i < |cases|
    ensures var p := i / size + 1;
      i % size < |PageOf(cases, p, size)| && PageOf(cases, p, size)[i % size] == cases[i]
  {
    var p := i / size + 1;
    assert (p - 1) * size + i % size == i;
  }

  /** A page within range is empty only when there are no cases at all. */
  lemma PageEmptyIff(cases: seq<Case>, page: nat, size: nat)
    requires size >= 1 && 1 <= page <= MaxPages(|cases|, size)
    ensures PageOf(cases, page, size) == [] <==> cases == []
  {
    if cases != [] {
      var r := CeilPages(|cases|, size);
      MulLe(page - 1, r - 1, size);
    }
  }

  lemma {:induction false} MulLe(a: nat, b: nat, c: nat)
    requires a <= b
    ensures a * c <= b * c
  {
    if a < b {
      MulLe(a, b - 1, c);
      assert b * c == (b - 1) * c + c;
    }
  }

  /** What `renderTable` shows. */
  datatype Table = NoCasesFound | Rows(cases: seq<Case>)

  /** What `updatePagination` shows. */
  datatype Pagination = Pagination(text: string, previousDisabled: bool, nextDisabled: bool)

  /** The counters `updateStats` shows. */
  datatype Stats = Stats(total: nat, urgent: nat, pending: nat, completed: nat)

  predicate IsUrgent(c: Case) {
    Cell(c, "Urgency") == "Urgent"
  }

  predicate IsPending(c: Case) {
    Cell(c, "Status") == "New - Waiting for docs" || Cell(c, "Status") == "Waiting for Documents"
  }

  predicate IsCompleted(c: Case) {
    Cell(c, "Status") == "Completed"
  }

  /** A pending case is never completed, so the two counters never exceed the total. */
  lemma PendingCompletedBound(cases: seq<Case>)
    ensures |Filter(cases, IsPending)| + |Filter(cases, IsCompleted)| <= |cases|
  {
    FilterDisjointCount(cases, IsPending, IsCompleted);
  }

  /** One more case adds one to a counter exactly when it matches. */
  lemma CountStep(cases: seq<Case>, i: nat, p: Case -> bool)
    requires i < |cases|
    ensures |Filter(cases[..i + 1], p)| == |Filter(cases[..i], p)| + (if p(cases[i]) then 1 else 0)
  {
    assert cases[..i + 1] == cases[..i] + [cases[i]];
    FilterConcat(cases[..i], [cases[i]], p);
  }

  /** The entity replacing an escaped character, or the character itself. */
  function EscapeChar(c: char): string {
    match c
    case '&' => "&amp;"
    case '<' => "&lt;"
    case '>' => "&gt;"
    case '"' => "&quot;"
    case '\'' => "&#039;"
    case _ => [c]
  }

  /** `Utils.escape(text)`; a falsy text (here the empty text) gives the empty text. */
  function Escape(s: string): (r: string)
    ensures |r| >= |s|
    ensures s == [] ==> r == []
  {
    if s == [] then [] else EscapeChar(s[0]) + Escape(s[1..])
  }

  /** The escaped text holds none of the characters `<`, `>`, `"` or `'`. */
  lemma {:induction false} EscapeNoRawMarkup(s: string)
    ensures forall i :: 0 <= i < |Escape(s)| ==> Escape(s)[i] !in {'<', '>', '"', '\''}
  {
    if s != [] {
      EscapeNoRawMarkup(s[1..]);
      var e, rest := EscapeChar(s[0]), Escape(s[1..]);
      forall i | 0 <= i < |e + rest| ensures (e + rest)[i] !in {'<', '>', '"', '\''} {
        if i < |e| { assert (e + rest)[i] == e[i]; } else { assert (e + rest)[i] == rest[i - |e|]; }
      }
    }
  }

  /** Decoding the five entities, the reference against which escaping is checked. */
  function Unescape(s: string): string {
    if s == [] then []
    else if s[0] != '&' then [s[0]] + Unescape(s[1..])
    else if |s| >= 5 && s[..5] == "&amp;" then "&" + Unescape(s[5..])
    else if |s| >= 4 && s[..4] == "&lt;" then "<" + Unescape(s[4..])
    else if |s| >= 4 && s[..4] == "&gt;" then ">" + Unescape(s[4..])
    else if |s| >= 6 && s[..6] == "&quot;" then "\"" + Unescape(s[6..])
    else if |s| >= 6 && s[..6] == "&#039;" then "'" + Unescape(s[6..])
    else [s[0]] + Unescape(s[1..])
  }

  /** Decoding undoes the escaping of one character in front of any text:
      each of the five entities decodes to the character it replaced, and
      any other character stands for itself. */
  lemma UnescapeChar(c: char, rest: string)
    ensures Unescape(EscapeChar(c) + rest) == [c] + Unescape(rest)
  {
    var t := EscapeChar(c) + rest;
    match c
    case '&' => assert t[..5] == "&amp;" && t[5..] == rest;
    case '<' => assert t[..4] == "&lt;" && t[4..] == rest && t[1] == 'l';
    case '>' => assert t[..4] == "&gt;" && t[4..] == rest && t[1] == 'g';
    case '"' => assert t[..6] == "&quot;" && t[6..] == rest && t[1] == 'q';
    case '\'' => assert t[..6] == "&#039;" && t[6..] == rest && t[1] == '#';
    case _ => assert t[0] == c && t[1..] == rest;
  }

  /** Escaping loses nothing: decoding gives the text back. */
  lemma {:induction false} EscapeRoundTrip(s: string)
    ensures Unescape(Escape(s)) == s
  {
    if s != [] {
      EscapeRoundTrip(s[1..]);
      UnescapeChar(s[0], Escape(s[1..]));
      assert s == [s[0]] + s[1..];
    }
  }

  class CaseTable {
    var allCases: seq<Case>
    var filteredCases: seq<Case>
    var currentPage: nat
    var pageSize: nat
    var sortColumn: string
    var sortAscending: bool

    /** The page stays within range and the shown list is drawn from the full one. */
    ghost predicate Valid()
      reads this
    {
      && pageSize >= 1
      && 1 <= currentPage <= MaxPages(|filteredCases|, pageSize)
      && multiset(filteredCases) <= multiset(allCases)
    }

    constructor ()
      ensures allCases == [] && filteredCases == [] && currentPage == 1 && pageSize == 25
      ensures sortColumn == "Case ID" && sortAscending
      ensures Valid()
    {
      allCases, filteredCases := [], [];
      currentPage, pageSize := 1, 25;
      sortColumn, sortAscending := "Case ID", true;
    }

    /** `applyFilters()`, with the three inputs as parameters; the search text is lower-cased. */
    method ApplyFilters(searchInput: string, statusFilter: string, urgencyFilter: string)
      requires pageSize >= 1
      modifies this`filteredCases, this`currentPage
      ensures filteredCases == Filter(allCases, Matches(LowerStr(searchInput), statusFilter, urgencyFilter))
      ensures currentPage == 1
      ensures Valid()
    {
      filteredCases := Filter(allCases, Matches(LowerStr(searchInput), statusFilter, urgencyFilter));
      currentPage := 1;
    }

    /** The success branch of `loadCases()`: the received cases replace the
        list, and the filters are applied again. */
    method ReceiveCases(cases: seq<Case>, searchInput: string, statusFilter: string, urgencyFilter: string)
      requires Valid()
      modifies this`allCases, this`filteredCases, this`currentPage
      ensures allCases == cases
      ensures filteredCases == Filter(cases, Matches(LowerStr(searchInput), statusFilter, urgencyFilter))
      ensures currentPage == 1
      ensures Valid()
    {
      allCases := cases;
      ApplyFilters(searchInput, statusFilter, urgencyFilter);
    }

    /** `sortTable(column)`: the same column flips the direction, a new one
        sorts ascending; the shown list is reordered, the page is kept. */
    method SortTable(column: string)
      requires Valid()
      modifies this`sortColumn, this`sortAscending, this`filteredCases
      ensures sortColumn == column
      ensures sortAscending == if old(sortColumn) == column then !old(sortAscending) else true
      ensures filteredCases == SortByColumn(old(filteredCases), column, sortAscending)
      ensures Valid()
    {
      if sortColumn == column {
        sortAscending := !sortAscending;
      } else {
        sortColumn := column;
        sortAscending := true;
      }
      filteredCases := SortByColumn(filteredCases, column, sortAscending);
    }

    /** The table `renderTable()` draws: the current page, or the "No cases
        found" row, which appears exactly when no case passes the filters. */
    function RenderTable(): (t: Table)
      requires Valid()
      reads this
      ensures t.NoCasesFound? <==> filteredCases == []
      ensures t.Rows? ==> t.cases == PageOf(filteredCases, currentPage, pageSize)
    {
      PageEmptyIff(filteredCases, currentPage, pageSize);
      var page := PageOf(filteredCases, currentPage, pageSize);
      if page == [] then NoCasesFound else Rows(page)
    }

    /** `nextPage()`: moves on only while a later page exists. */
    method NextPage()
      requires Valid()
      modifies this`currentPage
      ensures currentPage == if old(currentPage) < CeilPages(|filteredCases|, pageSize) then old(currentPage) + 1 else old(currentPage)
      ensures Valid()
    {
      if currentPage < CeilPages(|filteredCases|, pageSize) {
        currentPage := currentPage + 1;
      }
    }

    /** `previousPage()`: moves back only from a page after the first. */
    method PreviousPage()
      requires Valid()
      modifies this`currentPage
      ensures currentPage == if old(currentPage) > 1 then old(currentPage) - 1 else old(currentPage)
      ensures Valid()
    {
      if currentPage > 1 {
        currentPage := currentPage - 1;
      }
    }

    /** `changePageSize()`, with the selected size as a parameter. */
    method ChangePageSize(size: nat)
      requires Valid() && size >= 1
      modifies this`pageSize, this`currentPage
      ensures pageSize == size && currentPage == 1
      ensures Valid()
    {
      pageSize := size;
      currentPage := 1;
    }

    /** `updatePagination()`: a button is disabled exactly when its move would
        do nothing. */
    function UpdatePagination(): (p: Pagination)
      requires Valid()
      reads this
      ensures p.previousDisabled <==> !(currentPage > 1)
      ensures p.nextDisabled <==> !(currentPage < CeilPages(|filteredCases|, pageSize))
      ensures p.text == "Page " + NatToString(currentPage) + " of " + NatToString(MaxPages(|filteredCases|, pageSize))
    {
      var maxPages := MaxPages(|filteredCases|, pageSize);
      Pagination("Page " + NatToString(currentPage) + " of " + NatToString(maxPages),
                 currentPage == 1, currentPage == maxPages)
    }

    /** `updateStats()`: one pass over all cases, counting each kind. */
    method UpdateStats() returns (s: Stats)
      ensures s.total == |allCases|
      ensures s.urgent == |Filter(allCases, IsUrgent)|
      ensures s.pending == |Filter(allCases, IsPending)|
      ensures s.completed == |Filter(allCases, IsCompleted)|
      ensures s.pending + s.completed <= s.total
    {
      var total, urgent, pending, completed := 0, 0, 0, 0;
      var i := 0;
      while i < |allCases|
        invariant 0 <= i <= |allCases|
        invariant total == i
        invariant urgent == |Filter(allCases[..i], IsUrgent)|
        invariant pending == |Filter(allCases[..i], IsPending)|
        invariant completed == |Filter(allCases[..i], IsCompleted)|
      {
        var c := allCases[i];
        CountStep(allCases, i, IsUrgent);
        CountStep(allCases, i, IsPending);
        CountStep(allCases, i, IsCompleted);
        total := total + 1;
        if Cell(c, "Urgency") == "Urgent" {
          urgent := urgent + 1;
        }
        if Cell(c, "Status") == "New - Waiting for docs" || Cell(c, "Status") == "Waiting for Documents" {
          pending := pending + 1;
        }
        if Cell(c, "Status") == "Completed" {
          completed := completed + 1;
        }
        i := i + 1;
      }
      assert allCases[..i] == allCases;
      PendingCompletedBound(allCases);
      s := Stats(total, urgent, pending, completed);
    }
  }
}
