/** TransactionService: create, import, update and delete, with one event queued per new transaction. */
module Transactions {
  import opened Common
  import opened Calendar
  import opened MessageId
  import opened Text
  import opened Ledger
  import opened Outbox
  import opened ImportColumns
  import opened Import

  const SUBJECT: string := "finora.transaction.created"

  datatype TransactionCreated = TransactionCreated(
    transactionId: string,
    userId: string,
    accountId: string,
    categoryId: Option<string>,
    kind: TransactionType,
    amount: real,
    currency: string,
    date: string
  )

  /** What Create and Update are given; the type is still text. */
  datatype Input = Input(
    accountId: string,
    categoryId: Option<string>,
    kind: string,
    amount: real,
    currency: string,
    date: Instant,
    note: string
  )

  /** A lookup by id and owner: the document, no such document, or a storage error. */
  datatype Lookup<+T> = Found(value: T) | Missing | Unavailable

  /** What the account and category collections answer for an id and the user who must own it. */
  datatype Directory = Directory(
    account: (string, string) -> Lookup<Account>,
    category: (string, string) -> Lookup<()>
  )

  datatype ServiceError = Invalid(field: string, message: string) | NotFound | Database

  /** time.Time's zero value: 1 January of year 1. */
  const ZERO_TIME: Instant := -62_135_596_800_000_000_000

  function EventRow(t: Transaction): Row<TransactionCreated> {
    Row(SUBJECT,
        TransactionCreated(t.id, t.userId, t.accountId, t.categoryId, t.kind, t.amount, t.currency, Rfc3339(t.date)),
        t.id, None)
  }

  /** validateCommon */
  function Complaint(input: Input): Option<ServiceError> {
    if TrimSpace(input.accountId) == "" then Some(Invalid("account_id", "account_id is required"))
    else if KindOf(input.kind).None? then Some(Invalid("type", "type must be one of: income, expense"))
    else if input.amount <= 0.0 then Some(Invalid("amount", "amount must be greater than zero"))
    else if input.amount > MAX_AMOUNT then Some(Invalid("amount", "amount exceeds the maximum allowed value"))
    else if TrimSpace(input.currency) == "" then Some(Invalid("currency", "currency is required"))
    else if input.date == ZERO_TIME then Some(Invalid("date", "date is required"))
    else None
  }

  lemma KnownKind(input: Input)
    requires Complaint(input).None?
    ensures KindOf(input.kind).Some?
  {
  }

  function Refusal<T>(l: Lookup<T>, field: string, message: string): Option<ServiceError> {
    match l
    case Found(_) => None
    case Missing => Some(Invalid(field, message))
    case Unavailable => Some(Database)
  }

  function AccountRefusal(accountId: string, userId: string, dir: Directory): Option<ServiceError> {
    Refusal(dir.account(accountId, userId), "account_id", "account does not exist")
  }

  function CategoryRefusal(categoryId: Option<string>, userId: string, dir: Directory): Option<ServiceError> {
    if categoryId.Some? && TrimSpace(categoryId.value) != ""
    then Refusal(dir.category(categoryId.value, userId), "category_id", "category does not exist")
    else None
  }

  function CreateOutcome(userId: string, input: Input, dir: Directory, insertOk: bool, newId: string)
    : Result<Transaction, ServiceError>
  {
    var account := AccountRefusal(input.accountId, userId, dir);
    var category := CategoryRefusal(input.categoryId, userId, dir);
    if Complaint(input).Some? then Err(Complaint(input).value)
    else if account.Some? then Err(account.value)
    else if category.Some? then Err(category.value)
    else if !insertOk then Err(Database)
    else Ok(Transaction(newId, userId, input.accountId, input.categoryId, KindOf(input.kind).value, input.amount,
                        input.currency, input.date, input.note))
  }

  /** The edit of a transaction already found; an unchanged account is not looked up again. */
  function Edited(t: Transaction, input: Input, dir: Directory): Result<Transaction, ServiceError> {
    var account := if input.accountId != t.accountId then AccountRefusal(input.accountId, t.userId, dir) else None;
    var category := CategoryRefusal(input.categoryId, t.userId, dir);
    if Complaint(input).Some? then Err(Complaint(input).value)
    else if account.Some? then Err(account.value)
    else if category.Some? then Err(category.value)
    else Ok(t.(accountId := input.accountId, categoryId := input.categoryId, kind := KindOf(input.kind).value,
               amount := input.amount, currency := input.currency, date := input.date, note := input.note))
  }

  /** A transaction at the moment it was stored, and whether its event was queued. */
  datatype Birth = Birth(transaction: Transaction, announced: bool)

  /** The events of a series of births, in order. */
  function Announcements(births: seq<Birth>): seq<Row<TransactionCreated>> {
    if births == [] then []
    else
      var b := births[|births| - 1];
      Announcements(births[..|births| - 1]) + (if b.announced then [EventRow(b.transaction)] else [])
  }

  /** The births of an import's first n rows. */
  function Births(c: Call, n: nat): seq<Birth>
    requires n <= |c.rows|
  {
    if n == 0 then []
    else
      Births(c, n - 1) + (match Outcome(c, n - 1)
                          case Ok(t) => [Birth(t, c.world.enqueueOk(n - 1))]
                          case Err(_) => [])
  }

  lemma AnnouncementsSnoc(births: seq<Birth>, b: Birth)
    ensures Announcements(births + [b])
         == Announcements(births) + (if b.announced then [EventRow(b.transaction)] else [])
  {
    assert (births + [b])[..|births + [b]| - 1] == births;
  }

  lemma NoRowsYet(c: Call)
    ensures Accepted(c, 0) == [] && Failures(c, 0) == [] && Announcements(Births(c, 0)) == []
  {
  }

  /** What one more row adds to each account of the import. */
  lemma RowCounted(c: Call, i: nat)
    requires i < |c.rows|
    ensures match Outcome(c, i)
            case Ok(t) =>
              && Accepted(c, i + 1) == Accepted(c, i) + [t]
              && Failures(c, i + 1) == Failures(c, i)
              && Announcements(Births(c, i + 1))
                 == Announcements(Births(c, i)) + (if c.world.enqueueOk(i) then [EventRow(t)] else [])
            case Err(e) =>
              && Accepted(c, i + 1) == Accepted(c, i)
              && Failures(c, i + 1) == Failures(c, i) + [ImportRowError(i + 2, e)]
              && Births(c, i + 1) == Births(c, i)
  {
    hide Outcome, EventRow;
    match Outcome(c, i) {
      case Ok(t) => AnnouncementsSnoc(Births(c, i), Birth(t, c.world.enqueueOk(i)));
      case Err(_) =>
    }
  }

  class TransactionService {
    const repo: TransactionRepository
    const outbox: OutboxStore<TransactionCreated>

    constructor (repo: TransactionRepository, outbox: OutboxStore<TransactionCreated>)
      ensures this.repo == repo && this.outbox == outbox
    {
      this.repo, this.outbox := repo, outbox;
    }

    /** A failed enqueue is logged and nothing more: the transaction is already stored. */
    method PublishCreated(t: Transaction, enqueueOk: bool)
      modifies outbox
      ensures outbox.rows == old(outbox.rows) + (if enqueueOk then [EventRow(t)] else [])
    {
      var payload := TransactionCreated(t.id, t.userId, t.accountId, t.categoryId, t.kind, t.amount, t.currency,
          Rfc3339(t.date));
      var _ := outbox.Enqueue(SUBJECT, payload, t.id, enqueueOk);
    }

    method Create(userId: string, input: Input, dir: Directory, insertOk: bool, newId: string, enqueueOk: bool)
      returns (r: Result<Transaction, ServiceError>)
      modifies repo, outbox
      ensures r == CreateOutcome(userId, input, dir, insertOk, newId)
      ensures repo.docs == old(repo.docs) + (if r.Ok? then [r.value] else [])
      ensures outbox.rows == old(outbox.rows) + (if r.Ok? && enqueueOk then [EventRow(r.value)] else [])
    {
      hide EventRow, Complaint, TrimSpace;
      var complaint := Complaint(input);
      if complaint.Some? {
        return Err(complaint.value);
      }
      var account := dir.account(input.accountId, userId);
      if account.Missing? {
        return Err(Invalid("account_id", "account does not exist"));
      }
      if account.Unavailable? {
        return Err(Database);
      }
      if input.categoryId.Some? && TrimSpace(input.categoryId.value) != "" {
        var category := dir.category(input.categoryId.value, userId);
        if category.Missing? {
          return Err(Invalid("category_id", "category does not exist"));
        }
        if category.Unavailable? {
          return Err(Database);
        }
      }
      KnownKind(input);
      var t := Transaction("", userId, input.accountId, input.categoryId, KindOf(input.kind).value, input.amount,
                           input.currency, input.date, input.note);
      var stored := repo.Create(t, newId, insertOk);
      if stored.None? {
        return Err(Database);
      }
      PublishCreated(stored.value, enqueueOk);
      r := Ok(stored.value);
    }

    /** One import row: build, store, announce. */
    method ImportRowAt(c: Call, i: nat) returns (r: Result<Transaction, RowError>)
      requires i < |c.rows|
      modifies repo, outbox
      ensures r == Outcome(c, i)
      ensures repo.docs == old(repo.docs) + (if r.Ok? then [r.value] else [])
      ensures outbox.rows == old(outbox.rows) + (if r.Ok? && c.world.enqueueOk(i) then [EventRow(r.value)] else [])
    {
      hide BuildImportedTransaction, EventRow;
      var built := BuildImportedTransaction(c.userId, c.account, c.rows[i], c.lib);
      if built.Err? {
        return Err(built.error);
      }
      var stored := repo.Create(built.value, c.world.newId(i), c.world.insertOk(i));
      if stored.None? {
        return Err(SaveFailed);
      }
      PublishCreated(stored.value, c.world.enqueueOk(i));
      r := Ok(stored.value);
    }

    /** The row loop of Import: a bad row is counted and listed, never fatal. */
    method ImportRows(c: Call) returns (result: ImportResult)
      modifies repo, outbox
      ensures result == Tally(c, |c.rows|)
      ensures repo.docs == old(repo.docs) + Accepted(c, |c.rows|)
      ensures outbox.rows == old(outbox.rows) + Announcements(Births(c, |c.rows|))
    {
      hide Outcome, EventRow, First, Accepted, Failures, Births, Announcements;
      NoRowsYet(c);
      NoneListed();
      result := ImportResult(0, 0, []);
      for i := 0 to |c.rows|
        invariant result == Tally(c, i)
        invariant repo.docs == old(repo.docs) + Accepted(c, i)
        invariant outbox.rows == old(outbox.rows) + Announcements(Births(c, i))
      {
        var outcome := ImportRowAt(c, i);
        RowCounted(c, i);
        match outcome {
          case Ok(_) =>
            result := result.(imported := result.imported + 1);
          case Err(e) =>
            var errors := AppendImportError(result.errors, i + 2, e, Failures(c, i));
            result := ImportResult(result.imported, result.skipped + 1, errors);
        }
      }
    }

    method Import(userId: string, accountId: string, rows: seq<ImportRow>, dir: Directory, lib: Library, w: World)
      returns (r: Result<ImportResult, ServiceError>)
      modifies repo, outbox
      ensures r == if TrimSpace(accountId) == "" then Err(Invalid("account_id", "account_id is required"))
                   else if |rows| > 5000
                   then Err(Invalid("file", "file has more than 5000 rows; split it into smaller files"))
                   else
                     match dir.account(accountId, userId)
                     case Missing => Err(Invalid("account_id", "account does not exist"))
                     case Unavailable => Err(Database)
                     case Found(account) => Ok(Tally(Call(userId, account, rows, lib, w), |rows|))
      ensures r.Err? ==> repo.docs == old(repo.docs) && outbox.rows == old(outbox.rows)
      ensures r.Ok? ==> dir.account(accountId, userId).Found?
      ensures r.Ok? ==>
              var c := Call(userId, dir.account(accountId, userId).value, rows, lib, w);
              && repo.docs == old(repo.docs) + Accepted(c, |rows|)
              && outbox.rows == old(outbox.rows) + Announcements(Births(c, |rows|))
    {
      if TrimSpace(accountId) == "" {
        return Err(Invalid("account_id", "account_id is required"));
      }
      if |rows| > MAX_IMPORT_ROWS {
        return Err(Invalid("file", "file has more than 5000 rows; split it into smaller files"));
      }
      var account := dir.account(accountId, userId);
      if account.Missing? {
        return Err(Invalid("account_id", "account does not exist"));
      }
      if account.Unavailable? {
        return Err(Database);
      }
      hide Tally, Accepted, Births, Announcements;
      var result := ImportRows(Call(userId, account.value, rows, lib, w));
      r := Ok(result);
    }

    method Update(userId: string, id: string, input: Input, dir: Directory, findOk: bool, updateOk: bool)
      returns (r: Result<Transaction, ServiceError>)
      modifies repo
      ensures !findOk ==> r == Err(Database)
      ensures findOk && !Has(old(repo.docs), id, userId) ==> r == Err(NotFound)
      ensures r.Err? ==> repo.docs == old(repo.docs)
      ensures r.Ok? ==> updateOk && repo.docs == Replaced(old(repo.docs), r.value)
      ensures findOk && Has(old(repo.docs), id, userId) ==>
        exists t :: t in old(repo.docs) && Is(t, id, userId)
          && r == if Edited(t, input, dir).Ok? && !updateOk then Err(Database) else Edited(t, input, dir)
    {
      var found := repo.GetByIdForUser(id, userId, findOk);
      if found.Err? {
        return Err(if found.error.NoSuchTransaction? then NotFound else Database);
      }
      var edited := Edited(found.value, input, dir);
      if edited.Err? {
        return edited;
      }
      assert Has(repo.docs, id, userId);
      var matched := repo.Update(edited.value, updateOk);
      r := if !updateOk then Err(Database) else if matched then edited else Err(NotFound);
    }

    method Delete(userId: string, id: string, deleteOk: bool) returns (r: Result<(), ServiceError>)
      modifies repo
      ensures r == if !deleteOk then Err(Database)
          else if Has(old(repo.docs), id, userId) then Ok(()) else Err(NotFound)
      ensures repo.docs == if deleteOk then Without(old(repo.docs), id, userId) else old(repo.docs)
    {
      var matched := repo.DeleteByIdForUser(id, userId, deleteOk);
      r := if !deleteOk then Err(Database) else if matched then Ok(()) else Err(NotFound);
    }
  }

  lemma NoneListed()
    ensures First<ImportRowError>([], MAX_IMPORT_ERRORS) == []
  {
  }

  /** The category, if any is named, was found for the user. */
  predicate CategoryFound(dir: Directory, userId: string, categoryId: Option<string>) {
    categoryId.Some? && TrimSpace(categoryId.value) != "" ==> dir.category(categoryId.value, userId).Found?
  }

  /** No transaction is created against, or moved to, an account or category that was not found for its owner. */
  lemma NothingForeignIsReferenced(userId: string, input: Input, dir: Directory, insertOk: bool, newId: string,
                                   t: Transaction)
    ensures var r := CreateOutcome(userId, input, dir, insertOk, newId);
            r.Ok? ==>
              && r.value.userId == userId && dir.account(r.value.accountId, userId).Found?
              && CategoryFound(dir, userId, r.value.categoryId)
    ensures var r := Edited(t, input, dir);
            r.Ok? ==>
              && r.value.id == t.id && r.value.userId == t.userId
              && (r.value.accountId == t.accountId || dir.account(r.value.accountId, t.userId).Found?)
              && CategoryFound(dir, t.userId, r.value.categoryId)
  {
    hide Complaint, TrimSpace, KindOf;
    if Complaint(input).None? {
      KnownKind(input);
    }
  }
}
