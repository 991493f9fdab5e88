/** Transactions of expense-service: the collection, its filtered and paged listing. */
module Ledger {
  import opened Common
  import opened Calendar

  datatype TransactionType = Income | Expense

  datatype Transaction = Transaction(
    id: string,
    userId: string,
    accountId: string,
    categoryId: Option<string>,
    kind: TransactionType,
    amount: real,
    currency: string,
    date: Instant,
    note: string
  )

  /** Empty strings and absent dates do not filter. */
  datatype Filter = Filter(accountId: string, category: string, from: Option<Instant>, to: Option<Instant>,
                           page: int, pageSize: int)

  datatype Page = Page(transactions: seq<Transaction>, page: int, pageSize: int, total: int)

  datatype ListError = DatabaseFailed | ToBeforeFrom

  datatype GetError = NoSuchTransaction | GetFailed

  const MAX_AMOUNT: real := 1_000_000_000_000.0
  const DEFAULT_PAGE_SIZE: int := 20
  const MAX_PAGE_SIZE: int := 100

  predicate Selects(userId: string, f: Filter, t: Transaction) {
    && t.userId == userId
    && (f.accountId != "" ==> t.accountId == f.accountId)
    && (f.category != "" ==> t.categoryId == Some(f.category))
    && (f.from.Some? ==> f.from.value <= t.date)
    && (f.to.Some? ==> t.date <= f.to.value)
  }

  function Selected(docs: seq<Transaction>, userId: string, f: Filter): seq<Transaction> {
    if docs == [] then []
    else
      var t := docs[|docs| - 1];
      Selected(docs[..|docs| - 1], userId, f) + (if Selects(userId, f, t) then [t] else [])
  }

  /**
   A query selects, as often as they are stored, the owner's transactions that meet each given condition: the
   account, the category, and the two ends of the range, both included.
   */
  lemma {:induction false} SelectedAreTheMatching(docs: seq<Transaction>, userId: string, f: Filter, t: Transaction)
    ensures multiset(Selected(docs, userId, f))[t] ==
      if && t.userId == userId
         && (f.accountId == "" || t.accountId == f.accountId)
         && (f.category == "" || t.categoryId == Some(f.category))
         && (f.from.None? || t.date >= f.from.value)
         && (f.to.None? || t.date <= f.to.value)
      then multiset(docs)[t] else 0
  {
    if docs != [] {
      var n := |docs| - 1;
      SelectedAreTheMatching(docs[..n], userId, f, t);
      assert docs == docs[..n] + [docs[n]];
    }
  }

  // ---------- The descending sort by date ----------

  function InsertByDate(sorted: seq<Transaction>, t: Transaction): seq<Transaction> {
    if sorted == [] || t.date > sorted[0].date then [t] + sorted
    else [sorted[0]] + InsertByDate(sorted[1..], t)
  }

  /** Newest first; of equal dates, the one inserted earlier comes first. */
  function NewestFirst(docs: seq<Transaction>): seq<Transaction> {
    if docs == [] then [] else InsertByDate(NewestFirst(docs[..|docs| - 1]), docs[|docs| - 1])
  }

  ghost predicate Descending(s: seq<Transaction>) {
    forall i, j :: 0 <= i < j < |s| ==> s[i].date >= s[j].date
  }

  lemma {:induction false} InsertAdds(sorted: seq<Transaction>, t: Transaction)
    ensures multiset(InsertByDate(sorted, t)) == multiset(sorted) + multiset{t}
    decreases |sorted|
  {
    if sorted != [] && t.date <= sorted[0].date {
      assert sorted == [sorted[0]] + sorted[1..];
      InsertAdds(sorted[1..], t);
    }
  }

  lemma {:induction false} InsertSorts(sorted: seq<Transaction>, t: Transaction)
    requires Descending(sorted)
    ensures Descending(InsertByDate(sorted, t))
    decreases |sorted|
  {
    if sorted != [] && t.date <= sorted[0].date {
      var rest := InsertByDate(sorted[1..], t);
      InsertSorts(sorted[1..], t);
      forall i | 0 <= i < |rest|
        ensures rest[i].date <= sorted[0].date
      {
        InsertAdds(sorted[1..], t);
        assert rest[i] in multiset(rest);
      }
      hide InsertByDate;
      assert Descending([sorted[0]] + rest);
    }
  }

  /** The sort orders by date and neither loses nor invents a transaction. */
  lemma {:induction false} NewestFirstSorts(docs: seq<Transaction>)
    ensures Descending(NewestFirst(docs))
    ensures multiset(NewestFirst(docs)) == multiset(docs)
    ensures |NewestFirst(docs)| == |docs|
  {
    if docs != [] {
      var n := |docs| - 1;
      NewestFirstSorts(docs[..n]);
      InsertSorts(NewestFirst(docs[..n]), docs[n]);
      InsertAdds(NewestFirst(docs[..n]), docs[n]);
      assert docs == docs[..n] + [docs[n]];
    }
    assert |multiset(NewestFirst(docs))| == |NewestFirst(docs)| && |multiset(docs)| == |docs|;
  }

  // ---------- One page ----------

  function ClampedPage(page: int): (p: int)
    ensures p >= 1
  {
    if page < 1 then 1 else page
  }

  function ClampedSize(size: int): (s: int)
    ensures 1 <= s <= MAX_PAGE_SIZE
  {
    if size < 1 then DEFAULT_PAGE_SIZE else if size > MAX_PAGE_SIZE then MAX_PAGE_SIZE else size
  }

  /** Sizes from 1 to 100 are kept, smaller ones become 20 and larger ones 100; pages count from 1. */
  lemma ClampedValues(page: int, size: int)
    ensures 1 <= size <= 100 ==> ClampedSize(size) == size
    ensures size < 1 ==> ClampedSize(size) == 20
    ensures size > 100 ==> ClampedSize(size) == 100
    ensures ClampedPage(page) == if page >= 1 then page else 1
  {
  }

  function Skip(page: int, size: int): nat
    requires page >= 1 && size >= 1
  {
    assert 0 <= (page - 1) * size;
    (page - 1) * size
  }

  /** skip, then limit. */
  function Window<T>(s: seq<T>, skip: nat, limit: nat): seq<T> {
    if skip >= |s| then [] else if skip + limit >= |s| then s[skip..] else s[skip..skip + limit]
  }

  // ---------- Documents by id and owner ----------

  predicate Is(t: Transaction, id: string, userId: string) {
    t.id == id && t.userId == userId
  }

  predicate Has(docs: seq<Transaction>, id: string, userId: string) {
    exists i :: 0 <= i < |docs| && Is(docs[i], id, userId)
  }

  function Replaced(docs: seq<Transaction>, t: Transaction): (r: seq<Transaction>)
    ensures |r| == |docs|
  {
    seq(|docs|, i requires 0 <= i < |docs| => if Is(docs[i], t.id, t.userId) then t else docs[i])
  }

  function Without(docs: seq<Transaction>, id: string, userId: string): seq<Transaction> {
    Dropped(docs, (t: Transaction) => Is(t, id, userId))
  }

  /** The cursor loop. */
  method Fetch(matching: seq<Transaction>, skip: nat, limit: nat) returns (rows: seq<Transaction>)
    ensures rows == Window(matching, skip, limit)
  {
    rows := [];
    var i := skip;
    while i < |matching| && |rows| < limit
      invariant skip <= i
      invariant i <= |matching| || rows == []
      invariant |rows| == i - skip <= limit
      invariant i <= |matching| ==> rows == matching[skip..i]
    {
      rows := rows + [matching[i]];
      i := i + 1;
    }
  }

  class TransactionRepository {
    var docs: seq<Transaction>

    constructor ()
      ensures docs == []
    {
      docs := [];
    }

    /** InsertOne under a new ObjectID, which the stored transaction then carries. */
    method Create(t: Transaction, newId: string, insertOk: bool) returns (stored: Option<Transaction>)
      modifies this
      ensures stored == if insertOk then Some(t.(id := newId)) else None
      ensures docs == old(docs) + (if insertOk then [t.(id := newId)] else [])
    {
      if !insertOk {
        return None;
      }
      docs := docs + [t.(id := newId)];
      stored := Some(t.(id := newId));
    }

    /** An id that is no ObjectID names no document and is never asked for: findOk is then true. */
    method GetByIdForUser(id: string, userId: string, findOk: bool) returns (r: Result<Transaction, GetError>)
      ensures r.Ok? <==> findOk && Has(docs, id, userId)
      ensures r.Ok? ==> r.value in docs && Is(r.value, id, userId)
      ensures r.Err? ==> r.error == if findOk then NoSuchTransaction else GetFailed
    {
      if !findOk {
        return Err(GetFailed);
      }
      for i := 0 to |docs|
        invariant forall j :: 0 <= j < i ==> !Is(docs[j], id, userId)
      {
        if Is(docs[i], id, userId) {
          return Ok(docs[i]);
        }
      }
      r := Err(NoSuchTransaction);
    }

    /** $set of every field but the owner and the id. */
    method Update(t: Transaction, updateOk: bool) returns (matched: bool)
      modifies this
      ensures matched == Has(old(docs), t.id, t.userId)
      ensures docs == if updateOk then Replaced(old(docs), t) else old(docs)
    {
      matched := exists i :: 0 <= i < |docs| && Is(docs[i], t.id, t.userId);
      if updateOk {
        docs := Replaced(docs, t);
      }
    }

    method DeleteByIdForUser(id: string, userId: string, deleteOk: bool) returns (matched: bool)
      modifies this
      ensures matched == Has(old(docs), id, userId)
      ensures docs == if deleteOk then Without(old(docs), id, userId) else old(docs)
    {
      matched := exists i :: 0 <= i < |docs| && Is(docs[i], id, userId);
      if deleteOk {
        docs := Without(docs, id, userId);
      }
    }

    method ListByUser(userId: string, f: Filter, dbOk: bool) returns (r: Result<Page, ListError>)
      ensures r == if !dbOk then Err(DatabaseFailed) else
        var matching := NewestFirst(Selected(docs, userId, f));
        Ok(Page(Window(matching, Skip(ClampedPage(f.page), ClampedSize(f.pageSize)), ClampedSize(f.pageSize)),
                ClampedPage(f.page), ClampedSize(f.pageSize), |matching|))
    {
      if !dbOk {
        return Err(DatabaseFailed);
      }
      var page, pageSize := f.page, f.pageSize;
      if page < 1 {
        page := 1;
      }
      if pageSize < 1 {
        pageSize := DEFAULT_PAGE_SIZE;
      }
      if pageSize > MAX_PAGE_SIZE {
        pageSize := MAX_PAGE_SIZE;
      }
      assert page == ClampedPage(f.page) && pageSize == ClampedSize(f.pageSize);
      hide NewestFirst, Selected, ClampedPage, ClampedSize, Skip;
      var matching := NewestFirst(Selected(docs, userId, f));
      var transactions := Fetch(matching, Skip(page, pageSize), pageSize);
      r := Ok(Page(transactions, page, pageSize, |matching|));
    }
  }

  /** TransactionService.List: one check, the same clamping, then the repository. */
  method List(repo: TransactionRepository, userId: string, f: Filter, dbOk: bool) returns (r: Result<Page, ListError>)
    ensures r == if f.from.Some? && f.to.Some? && f.to.value < f.from.value then Err(ToBeforeFrom)
                 else if !dbOk then Err(DatabaseFailed) else
                   var matching := NewestFirst(Selected(repo.docs, userId, f));
                   Ok(Page(Window(matching, Skip(ClampedPage(f.page), ClampedSize(f.pageSize)),
                       ClampedSize(f.pageSize)),
                           ClampedPage(f.page), ClampedSize(f.pageSize), |matching|))
  {
    if f.from.Some? && f.to.Some? && f.to.value < f.from.value {
      return Err(ToBeforeFrom);
    }
    var page, pageSize := ClampedPage(f.page), ClampedSize(f.pageSize);
    var clamped := f.(page := page, pageSize := pageSize);
    SelectionIgnoresPaging(repo.docs, userId, f, clamped);
    r := repo.ListByUser(userId, clamped, dbOk);
  }

  lemma {:induction false} SelectionIgnoresPaging(docs: seq<Transaction>, userId: string, f: Filter, g: Filter)
    requires f == g.(page := f.page, pageSize := f.pageSize)
    ensures Selected(docs, userId, f) == Selected(docs, userId, g)
  {
    if docs != [] {
      SelectionIgnoresPaging(docs[..|docs| - 1], userId, f, g);
    }
  }
}
