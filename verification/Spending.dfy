/** The paged sum budget-service computes over expense-service's transaction list. */
module Spending {
  import opened Common
  import opened Calendar
  import opened Ledger

  const REPORT_PAGE_SIZE: nat := 100
  const MAX_REPORT_PAGES: nat := 50

  datatype Category = Category(id: string, name: string)

  /** Which calls to expense-service succeed: the category list, and the transaction list per page. */
  datatype Network = Network(categoriesOk: bool, pageOk: nat -> bool)

  datatype SumError = CategoriesFailed | PageFailed

  /** Amounts that count: client-side filtering keeps expenses only. */
  function Counted(t: Transaction): real {
    if t.kind.Expense? then t.amount else 0.0
  }

  function Total(s: seq<Transaction>): real {
    if s == [] then 0.0 else Total(s[..|s| - 1]) + Counted(s[|s| - 1])
  }

  lemma {:induction false} TotalAppend(a: seq<Transaction>, b: seq<Transaction>)
    ensures Total(a + b) == Total(a) + Total(b)
    decreases |b|
  {
    if b == [] {
      assert a + b == a;
    } else {
      var n := |b| - 1;
      assert (a + b)[..|a + b| - 1] == a + b[..n];
      TotalAppend(a, b[..n]);
    }
  }

  /** RFC 3339 text carries whole seconds, so a query's bounds lose their fraction. */
  function QuerySecond(t: Instant): Instant {
    t - t % 1_000_000_000
  }

  function QueryOf(category: string, from: Instant, to: Instant, page: int): Filter {
    Filter("", category, Some(QuerySecond(from)), Some(QuerySecond(to)), page, REPORT_PAGE_SIZE)
  }

  /** The transactions the query selects, in the order the pages come. */
  function Listing(docs: seq<Transaction>, userId: string, category: string, from: Instant,
                   to: Instant): seq<Transaction> {
    NewestFirst(Selected(docs, userId, QueryOf(category, from, to, 1)))
  }

  /** The total of the first n transactions, or of all when there are fewer. */
  function FirstTotal(s: seq<Transaction>, n: nat): real {
    Total(if n < |s| then s[..n] else s)
  }

  /** Pages the loop asks for when n transactions match and every page arrives. */
  function PagesRead(n: nat): nat {
    if n / REPORT_PAGE_SIZE + 1 < MAX_REPORT_PAGES then n / REPORT_PAGE_SIZE + 1 else MAX_REPORT_PAGES
  }

  /** Pages 1 to n all arrive. */
  ghost predicate PagesArrive(net: Network, n: nat) {
    forall p: nat :: 1 <= p <= n ==> net.pageOk(p)
  }

  predicate FirstMatch(cats: seq<Category>, name: string, equalFold: (string, string) -> bool, i: nat) {
    i < |cats| && equalFold(cats[i].name, name) && forall j :: 0 <= j < i ==> !equalFold(cats[j].name, name)
  }

  /** The id of the first category whose name matches. */
  function CategoryId(cats: seq<Category>, name: string, equalFold: (string, string) -> bool): Option<string> {
    if cats == [] then None
    else if equalFold(cats[0].name, name) then Some(cats[0].id)
    else CategoryId(cats[1..], name, equalFold)
  }

  lemma {:induction false} CategoryIdIsFirst(cats: seq<Category>, name: string, equalFold: (string, string) -> bool,
                                             i: nat)
    requires FirstMatch(cats, name, equalFold, i)
    ensures CategoryId(cats, name, equalFold) == Some(cats[i].id)
  {
    if i > 0 {
      assert !equalFold(cats[0].name, name);
      assert forall j :: 0 <= j < i - 1 ==> cats[1..][j] == cats[j + 1];
      CategoryIdIsFirst(cats[1..], name, equalFold, i - 1);
    }
  }

  lemma {:induction false} NoCategoryId(cats: seq<Category>, name: string, equalFold: (string, string) -> bool)
    requires forall i :: 0 <= i < |cats| ==> !equalFold(cats[i].name, name)
    ensures CategoryId(cats, name, equalFold) == None
  {
    if cats != [] {
      NoCategoryId(cats[1..], name, equalFold);
    }
  }

  /** What a successful SumExpensesByCategory returns: nothing for an unknown category, else the capped total. */
  function CategorySum(docs: seq<Transaction>, userId: string, category: Option<string>, from: Instant,
                       to: Instant): real {
    match category
    case None => 0.0
    case Some(id) => FirstTotal(Listing(docs, userId, id, from, to), REPORT_PAGE_SIZE * MAX_REPORT_PAGES)
  }

  method FindCategoryIdByName(cats: seq<Category>, name: string,
                              equalFold: (string, string) -> bool)
    returns (id: Option<string>)
    ensures id.Some? ==> exists i: nat :: FirstMatch(cats, name, equalFold, i) && id.value == cats[i].id
    ensures id.None? <==> forall i :: 0 <= i < |cats| ==> !equalFold(cats[i].name, name)
    ensures id == CategoryId(cats, name, equalFold)
  {
    for i := 0 to |cats|
      invariant forall j :: 0 <= j < i ==> !equalFold(cats[j].name, name)
    {
      if equalFold(cats[i].name, name) {
        CategoryIdIsFirst(cats, name, equalFold, i);
        return Some(cats[i].id);
      }
    }
    NoCategoryId(cats, name, equalFold);
    id := None;
  }

  method AddPage(total: real, rows: seq<Transaction>) returns (r: real)
    ensures r == total + Total(rows)
  {
    r := total;
    for i := 0 to |rows|
      invariant r == total + Total(rows[..i])
    {
      assert rows[..i + 1][..i] == rows[..i];
      if rows[i].kind.Expense? {
        r := r + rows[i].amount;
      }
    }
    assert rows[..|rows|] == rows;
  }

  method FetchPage(repo: TransactionRepository, userId: string, category: string, from: Instant, to: Instant,
                   page: nat, pageOk: bool)
    returns (r: Result<seq<Transaction>, SumError>)
    requires page >= 1
    ensures r == if pageOk && QuerySecond(from) <= QuerySecond(to)
                 then Ok(Window(Listing(repo.docs, userId, category, from, to), (page - 1) * REPORT_PAGE_SIZE,
                     REPORT_PAGE_SIZE))
                 else Err(PageFailed)
  {
    hide NewestFirst, Selected, QuerySecond, Window;
    var query := QueryOf(category, from, to, page);
    SelectionIgnoresPaging(repo.docs, userId, QueryOf(category, from, to, 1), query);
    var answer := List(repo, userId, query, pageOk);
    r := if answer.Ok? then Ok(answer.value.transactions) else Err(PageFailed);
  }

  /** The page loop, once the category is known. */
  method SumPages(repo: TransactionRepository, userId: string, category: string, from: Instant, to: Instant,
                  net: Network)
    returns (r: Result<real, SumError>)
    ensures r.Err? ==> r.error == PageFailed
    ensures r.Ok? <==> && QuerySecond(from) <= QuerySecond(to)
                       && PagesArrive(net, PagesRead(|Listing(repo.docs, userId, category, from, to)|))
    ensures r.Ok? ==> r.value == FirstTotal(Listing(repo.docs, userId, category, from, to),
        REPORT_PAGE_SIZE * MAX_REPORT_PAGES)
  {
    var total := 0.0;
    ghost var listing := Listing(repo.docs, userId, category, from, to);
    hide *;
    FirstOfNone(listing);
    ghost var counted, arrived := 0, 0;
    NoPagesNeeded(net);
    var page := 1;
    while page <= MAX_REPORT_PAGES
      invariant 1 <= page <= MAX_REPORT_PAGES + 1
      invariant counted == (page - 1) * REPORT_PAGE_SIZE <= |listing|
      invariant total == FirstTotal(listing, counted)
      invariant page - 1 == arrived && PagesArrive(net, arrived)
      invariant page > 1 ==> QuerySecond(from) <= QuerySecond(to)
    {
      var answer := FetchPage(repo, userId, category, from, to, page, net.pageOk(page));
      if answer.Err? {
        PagesReached(|listing|, page);
        MissingPage(net, page, PagesRead(|listing|));
        return Err(PageFailed);
      }
      OneMorePage(net, page);
      arrived := page;
      PageIsNextStretch(listing, counted, answer.value);
      total := AddPage(total, answer.value);
      counted := counted + |answer.value|;
      if |answer.value| < REPORT_PAGE_SIZE {
        PagesReached(|listing|, page);
        break;
      }
      page := page + 1;
    }
    PagesReached(|listing|, MAX_REPORT_PAGES);
    assert arrived == PagesRead(|listing|);
    FirstOfEnough(listing, counted, REPORT_PAGE_SIZE * MAX_REPORT_PAGES);
    r := Ok(total);
  }

  lemma PagesReached(n: nat, page: nat)
    requires 1 <= page <= MAX_REPORT_PAGES
    ensures (page - 1) * REPORT_PAGE_SIZE <= n ==> page <= PagesRead(n)
    ensures n < page * REPORT_PAGE_SIZE ==> PagesRead(n) <= page
    ensures PagesRead(n) <= MAX_REPORT_PAGES
  {
  }

  lemma NoPagesNeeded(net: Network)
    ensures PagesArrive(net, 0)
  {
  }

  lemma OneMorePage(net: Network, page: nat)
    requires page >= 1 && PagesArrive(net, page - 1) && net.pageOk(page)
    ensures PagesArrive(net, page)
  {
  }

  lemma MissingPage(net: Network, page: nat, n: nat)
    requires 1 <= page <= n
    ensures PagesArrive(net, n) ==> net.pageOk(page)
  {
  }

  lemma FirstOfNone(listing: seq<Transaction>)
    ensures FirstTotal(listing, 0) == 0.0
  {
    assert listing[..0] == [];
  }

  /** A page extends the part already summed, and is short only when it reaches the end. */
  lemma PageIsNextStretch(listing: seq<Transaction>, skip: nat, rows: seq<Transaction>)
    requires skip <= |listing| && rows == Window(listing, skip, REPORT_PAGE_SIZE)
    ensures skip + |rows| <= |listing| && |rows| <= REPORT_PAGE_SIZE
    ensures FirstTotal(listing, skip + |rows|) == FirstTotal(listing, skip) + Total(rows)
    ensures |rows| < REPORT_PAGE_SIZE ==> skip + |rows| == |listing|
  {
    assert listing[..skip + |rows|] == listing[..skip] + rows;
    TotalAppend(listing[..skip], rows);
    assert listing[..|listing|] == listing;
  }

  lemma FirstOfEnough(listing: seq<Transaction>, m: nat, n: nat)
    requires m == n || |listing| == m <= n
    ensures FirstTotal(listing, n) == FirstTotal(listing, m)
  {
  }

  method SumExpensesByCategory(repo: TransactionRepository, cats: seq<Category>, equalFold: (string, string) -> bool,
                               userId: string, name: string, from: Instant, to: Instant, net: Network)
    returns (r: Result<real, SumError>)
    ensures r == Err(CategoriesFailed) <==> !net.categoriesOk
    ensures r.Ok? ==> r.value == CategorySum(repo.docs, userId, CategoryId(cats, name, equalFold), from, to)
    ensures net.categoriesOk ==>
      match CategoryId(cats, name, equalFold)
      case None => r.Ok?
      case Some(id) =>
        var n := |Listing(repo.docs, userId, id, from, to)|;
        r.Ok? <==> QuerySecond(from) <= QuerySecond(to) && PagesArrive(net, PagesRead(n))
  {
    if !net.categoriesOk {
      return Err(CategoriesFailed);
    }
    var id := FindCategoryIdByName(cats, name, equalFold);
    if id.None? {
      return Ok(0.0);
    }
    hide Listing, FirstTotal, PagesRead, QuerySecond;
    r := SumPages(repo, userId, id.value, from, to, net);
  }

  // ---------- What the capped, paged sum means ----------

  /** One fold over the collection, with no filtering, sorting or paging. */
  function DirectSum(docs: seq<Transaction>, userId: string, category: string, from: Instant, to: Instant): real {
    if docs == [] then 0.0
    else
      var t := docs[|docs| - 1];
      DirectSum(docs[..|docs| - 1], userId, category, from, to)
      + (if Selects(userId, QueryOf(category, from, to, 1), t) then Counted(t) else 0.0)
  }

  lemma {:induction false} InsertTotal(sorted: seq<Transaction>, t: Transaction)
    ensures Total(InsertByDate(sorted, t)) == Total(sorted) + Counted(t)
    decreases |sorted|
  {
    TotalOfOne(t);
    if sorted == [] || t.date > sorted[0].date {
      TotalAppend([t], sorted);
    } else {
      InsertTotal(sorted[1..], t);
      assert sorted == [sorted[0]] + sorted[1..];
      TotalAppend([sorted[0]], sorted[1..]);
      TotalAppend([sorted[0]], InsertByDate(sorted[1..], t));
    }
  }

  lemma TotalOfOne(t: Transaction)
    ensures Total([t]) == Counted(t)
  {
    assert [t][..0] == [];
  }

  lemma {:induction false} SortKeepsTotal(docs: seq<Transaction>)
    ensures Total(NewestFirst(docs)) == Total(docs)
  {
    if docs != [] {
      var n := |docs| - 1;
      SortKeepsTotal(docs[..n]);
      InsertTotal(NewestFirst(docs[..n]), docs[n]);
    }
  }

  lemma {:induction false} SelectionTotal(docs: seq<Transaction>, userId: string, category: string, from: Instant,
                                          to: Instant)
    ensures Total(Selected(docs, userId, QueryOf(category, from, to, 1))) == DirectSum(docs, userId, category, from, to)
  {
    hide QueryOf, Selects;
    if docs != [] {
      var n := |docs| - 1;
      var f := QueryOf(category, from, to, 1);
      SelectionTotal(docs[..n], userId, category, from, to);
      if Selects(userId, f, docs[n]) {
        TotalAppend(Selected(docs[..n], userId, f), [docs[n]]);
        TotalOfOne(docs[n]);
      } else {
        assert Selected(docs, userId, f) == Selected(docs[..n], userId, f);
      }
    }
  }

  /** Up to five thousand matches, the paged sum is the direct one. */
  lemma PagedIsDirect(docs: seq<Transaction>, userId: string, category: string, from: Instant, to: Instant)
    requires |Listing(docs, userId, category, from, to)| <= 5_000
    ensures FirstTotal(Listing(docs, userId, category, from, to), 5_000)
         == DirectSum(docs, userId, category, from, to)
  {
    SortKeepsTotal(Selected(docs, userId, QueryOf(category, from, to, 1)));
    SelectionTotal(docs, userId, category, from, to);
  }

  lemma {:induction false} TotalIsPositive(s: seq<Transaction>)
    requires forall t :: t in s ==> Stored(t)
    ensures Total(s) >= 0.0
    ensures Total(s) == 0.0 <==> forall i :: 0 <= i < |s| ==> !s[i].kind.Expense?
  {
    if s != [] {
      var n := |s| - 1;
      assert Stored(s[n]);
      TotalIsPositive(s[..n]);
    }
  }

  lemma ListedAreStored(docs: seq<Transaction>, userId: string, category: string, from: Instant, to: Instant)
    requires forall t :: t in docs ==> Stored(t)
    ensures forall t :: t in Listing(docs, userId, category, from, to) ==> Stored(t)
  {
    hide QueryOf, Selects, Stored;
    var f := QueryOf(category, from, to, 1);
    var listing := Listing(docs, userId, category, from, to);
    NewestFirstSorts(Selected(docs, userId, f));
    SelectedMembers(docs, userId, f);
    forall t | t in listing
      ensures t in docs
    {
      assert t in multiset(listing);
    }
  }

  /** The capped sum never exceeds the direct one, and equals it exactly when no omitted transaction is an expense. */
  lemma CappedIffNothingOmitted(docs: seq<Transaction>, userId: string, category: string, from: Instant, to: Instant)
    requires forall t :: t in docs ==> Stored(t)
    ensures var listing := Listing(docs, userId, category, from, to);
            var capped := FirstTotal(listing, 5_000);
            var direct := DirectSum(docs, userId, category, from, to);
            && capped <= direct
            && (capped == direct <==>
                forall i :: 5_000 <= i < |listing| ==> !listing[i].kind.Expense?)
  {
    var listing := Listing(docs, userId, category, from, to);
    SortKeepsTotal(Selected(docs, userId, QueryOf(category, from, to, 1)));
    SelectionTotal(docs, userId, category, from, to);
    ListedAreStored(docs, userId, category, from, to);
    hide Listing, DirectSum, Total;
    OmittedTotal(listing, 5_000);
  }

  lemma OmittedTotal(listing: seq<Transaction>, n: nat)
    requires forall t :: t in listing ==> Stored(t)
    ensures FirstTotal(listing, n) <= Total(listing)
    ensures FirstTotal(listing, n) == Total(listing) <==> forall i :: n <= i < |listing| ==> !listing[i].kind.Expense?
  {
    hide Total, Stored;
    if n < |listing| {
      var rest := listing[n..];
      assert listing == listing[..n] + rest;
      TotalAppend(listing[..n], rest);
      TotalIsPositive(rest);
      assert forall i :: n <= i < |listing| ==> listing[i] == rest[i - n];
    }
  }

  /** Beyond that, what is left out is nowhere newer than what is counted. */
  lemma OmittedAreOldest(docs: seq<Transaction>, userId: string, category: string, from: Instant, to: Instant,
                         i: nat, j: nat)
    requires var listing := Listing(docs, userId, category, from, to);
             i < 5_000 <= j < |listing|
    ensures var listing := Listing(docs, userId, category, from, to); listing[i].date >= listing[j].date
  {
    NewestFirstSorts(Selected(docs, userId, QueryOf(category, from, to, 1)));
  }

  // ---------- Bounds ----------

  predicate Stored(t: Transaction) {
    0.0 < t.amount <= MAX_AMOUNT
  }

  predicate Whole(x: real) {
    x.Floor as real == x
  }

  function Ceiling(n: nat): real {
    n as real * MAX_AMOUNT
  }

  lemma CeilingStep(n: nat)
    ensures Ceiling(n + 1) == Ceiling(n) + MAX_AMOUNT
  {
  }

  lemma CeilingMonotone(m: nat, n: nat)
    requires m <= n
    ensures Ceiling(m) <= Ceiling(n)
  {
  }

  lemma {:induction false} TotalBounded(s: seq<Transaction>)
    requires forall t :: t in s ==> Stored(t)
    ensures 0.0 <= Total(s) <= Ceiling(|s|)
  {
    hide Ceiling;
    CeilingOfNone();
    if s != [] {
      var n := |s| - 1;
      assert Stored(s[n]);
      TotalBounded(s[..n]);
      CeilingStep(n);
    }
  }

  lemma CeilingOfNone()
    ensures Ceiling(0) == 0.0
  {
  }

  lemma WholeSum(x: real, y: real)
    requires Whole(x) && Whole(y)
    ensures Whole(x + y)
  {
    var a, b := x.Floor, y.Floor;
    assert (a + b) as real == x + y;
  }

  lemma {:induction false} TotalWhole(s: seq<Transaction>)
    requires forall t :: t in s ==> Whole(t.amount)
    ensures Whole(Total(s))
  {
    if s != [] {
      var n := |s| - 1;
      assert s[n] in s;
      TotalWhole(s[..n]);
      WholeSum(Total(s[..n]), Counted(s[n]));
    }
  }

  lemma {:induction false} SelectedMembers(docs: seq<Transaction>, userId: string, f: Filter)
    ensures forall t :: t in Selected(docs, userId, f) ==> t in docs && Selects(userId, f, t)
  {
    if docs != [] {
      SelectedMembers(docs[..|docs| - 1], userId, f);
      assert docs[|docs| - 1] in docs;
    }
  }

  /**
   Every running total of the loop lies between 0 and 5 * 10^15 < 2^53, and is a whole number of
   units if the amounts are: float64 would hold each of them exactly.
   */
  lemma TotalsStayExact(docs: seq<Transaction>, userId: string, category: string, from: Instant, to: Instant, k: nat)
    requires forall t :: t in docs ==> Stored(t)
    requires k <= |Listing(docs, userId, category, from, to)| && k <= REPORT_PAGE_SIZE * MAX_REPORT_PAGES
    ensures var running := Total(Listing(docs, userId, category, from, to)[..k]);
            && 0.0 <= running <= 5_000_000_000_000_000.0 < 9_007_199_254_740_992.0
            && ((forall t :: t in docs ==> Whole(t.amount)) ==> Whole(running))
  {
    hide QueryOf, Selects;
    var f := QueryOf(category, from, to, 1);
    var listing := Listing(docs, userId, category, from, to);
    NewestFirstSorts(Selected(docs, userId, f));
    SelectedMembers(docs, userId, f);
    forall t | t in listing[..k]
      ensures t in docs
    {
      assert t in multiset(listing);
    }
    TotalBounded(listing[..k]);
    CeilingMonotone(k, REPORT_PAGE_SIZE * MAX_REPORT_PAGES);
    if forall t :: t in docs ==> Whole(t.amount) {
      TotalWhole(listing[..k]);
    }
  }
}
