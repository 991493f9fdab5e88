/** Statement rows turned into transactions, and the account an import gives of itself. */
module Import {
  import opened Common
  import opened Calendar
  import opened Text
  import opened AmountText
  import opened ImportDates
  import opened ImportColumns
  import opened Ledger

  const MAX_IMPORT_ERRORS: nat := 20
  const MAX_IMPORT_ROWS: nat := 5000
  const MAX_NOTE_LENGTH: nat := 1000

  datatype Account = Account(id: string, currency: string)

  datatype RowError =
    | InvalidDate
    | BadAmount(amount: AmountError)
    | BadDebit(debit: AmountError)
    | BadCredit(credit: AmountError)
    | NoAmount
    | BadType(text: string)
    | NotPositive
    | AboveMaximum
    | SaveFailed

  datatype ImportRowError = ImportRowError(row: nat, message: RowError)

  datatype ImportResult = ImportResult(imported: nat, skipped: nat, errors: seq<ImportRowError>)

  /** Per row: whether its insert and its enqueue succeed, and the ObjectID its insert would use. */
  datatype World = World(insertOk: nat -> bool, enqueueOk: nat -> bool, newId: nat -> string)

  /** One import past validation. */
  datatype Call = Call(userId: string, account: Account, rows: seq<ImportRow>, lib: Library, world: World)

  // ---------- One row ----------

  function ResolveImportAmount(row: ImportRow, lib: Library): Result<(real, TransactionType), RowError> {
    if TrimSpace(row.amount) != "" then
      match ParseImportAmount(row.amount, lib)
      case Err(e) => Err(BadAmount(e))
      case Ok(x) => if x < 0.0 then Ok((Abs(x), Expense)) else Ok((x, Income))
    else
      var debit := if TrimSpace(row.debit) != "" then ParseImportAmount(row.debit, lib) else Ok(0.0);
      if debit.Err? then Err(BadDebit(debit.error))
      else if debit.value != 0.0 then Ok((Abs(debit.value), Expense))
      else
        var credit := if TrimSpace(row.credit) != "" then ParseImportAmount(row.credit, lib) else Ok(0.0);
        if credit.Err? then Err(BadCredit(credit.error))
        else if credit.value != 0.0 then Ok((Abs(credit.value), Income))
        else Err(NoAmount)
  }

  function KindOf(text: string): Option<TransactionType> {
    if text == "income" then Some(Income) else if text == "expense" then Some(Expense) else None
  }

  function ResolveType(row: ImportRow, inferred: TransactionType, lib: Library): Option<TransactionType> {
    var text := ToLower(TrimSpace(row.kind), lib);
    if text == "" then Some(inferred) else KindOf(text)
  }

  function Note(description: string): (n: string)
    ensures |n| <= MAX_NOTE_LENGTH
  {
    var note := TrimSpace(description);
    if |note| > MAX_NOTE_LENGTH then note[..MAX_NOTE_LENGTH] else note
  }

  function BuildImportedTransaction(userId: string, account: Account, row: ImportRow,
                                    lib: Library): Result<Transaction, RowError> {
    var date := ParseImportDate(row.date, lib);
    if date.None? then Err(InvalidDate)
    else
      var resolved := ResolveImportAmount(row, lib);
      if resolved.Err? then Err(resolved.error)
      else
        var (amount, inferred) := resolved.value;
        var kind := ResolveType(row, inferred, lib);
        if kind.None? then Err(BadType(row.kind))
        else if amount <= 0.0 then Err(NotPositive)
        else if amount > MAX_AMOUNT then Err(AboveMaximum)
        else Ok(Transaction("", userId, account.id, None, kind.value, amount, account.currency, date.value,
            Note(row.description)))
  }

  /** What becomes of row i: the stored transaction, or why there is none. */
  function Outcome(c: Call, i: nat): Result<Transaction, RowError>
    requires i < |c.rows|
  {
    match BuildImportedTransaction(c.userId, c.account, c.rows[i], c.lib)
    case Err(e) => Err(e)
    case Ok(t) => if c.world.insertOk(i) then Ok(t.(id := c.world.newId(i))) else Err(SaveFailed)
  }

  // ---------- The first n rows ----------

  function Accepted(c: Call, n: nat): seq<Transaction>
    requires n <= |c.rows|
  {
    if n == 0 then []
    else Accepted(c, n - 1) + (match Outcome(c, n - 1) case Ok(t) => [t] case Err(_) => [])
  }

  /** Every failing row with its number in the file, whose header is row 1. */
  function Failures(c: Call, n: nat): seq<ImportRowError>
    requires n <= |c.rows|
  {
    if n == 0 then []
    else Failures(c, n - 1) + (match Outcome(c, n - 1) case Ok(_) => [] case Err(e) => [ImportRowError(n + 1, e)])
  }

  function First<T>(s: seq<T>, n: nat): seq<T> {
    if |s| > n then s[..n] else s
  }

  function Tally(c: Call, n: nat): ImportResult
    requires n <= |c.rows|
  {
    ImportResult(|Accepted(c, n)|, |Failures(c, n)|, First(Failures(c, n), MAX_IMPORT_ERRORS))
  }

  /** The error list after one more failure. */
  method AppendImportError(errors: seq<ImportRowError>, row: nat, message: RowError, ghost all: seq<ImportRowError>)
    returns (r: seq<ImportRowError>)
    requires errors == First(all, MAX_IMPORT_ERRORS)
    ensures r == First(all + [ImportRowError(row, message)], MAX_IMPORT_ERRORS)
  {
    r := errors;
    if |errors| < MAX_IMPORT_ERRORS {
      r := errors + [ImportRowError(row, message)];
    }
  }

  // ---------- Accounting ----------

  lemma {:induction false} EveryRowCounted(c: Call, n: nat)
    requires n <= |c.rows|
    ensures Tally(c, n).imported + Tally(c, n).skipped == n
  {
    hide Outcome;
    if n > 0 {
      EveryRowCounted(c, n - 1);
    }
  }

  /** Rows that fail, by position. */
  function FailingRows(c: Call, n: nat): (r: seq<nat>)
    requires n <= |c.rows|
    ensures RowsBelow(r, n)
  {
    if n == 0 then [] else FailingRows(c, n - 1) + (if Outcome(c, n - 1).Err? then [n - 1] else [])
  }

  predicate RowsBelow(s: seq<nat>, n: nat) {
    && (forall k :: 0 <= k < |s| ==> s[k] < n)
    && (forall k, l :: 0 <= k < l < |s| ==> s[k] < s[l])
  }

  ghost predicate FailuresExact(c: Call, n: nat, rows: seq<nat>, failures: seq<ImportRowError>)
    requires n <= |c.rows| && RowsBelow(rows, n)
  {
    && |failures| == |rows|
    && (forall k :: 0 <= k < |failures| ==>
         failures[k].row == rows[k] + 2 && Outcome(c, rows[k]) == Err(failures[k].message))
    && (forall i: nat :: i < n ==> (Outcome(c, i).Err? <==> i in rows))
  }

  /** The failures are the failing rows, each once, in file order, numbered from row 2. */
  lemma {:induction false} FailuresAreTheFailingRows(c: Call, n: nat)
    requires n <= |c.rows|
    ensures FailuresExact(c, n, FailingRows(c, n), Failures(c, n))
  {
    hide Outcome;
    if n > 0 {
      FailuresAreTheFailingRows(c, n - 1);
      var rows, failures := FailingRows(c, n - 1), Failures(c, n - 1);
      if Outcome(c, n - 1).Err? {
        var e := ImportRowError(n + 1, Outcome(c, n - 1).error);
        assert FailingRows(c, n) == rows + [n - 1] && Failures(c, n) == failures + [e];
        hide FailingRows, Failures, FailuresExact;
        FailureAdded(c, n, rows, failures);
      } else {
        assert FailingRows(c, n) == rows && Failures(c, n) == failures;
      }
    }
  }

  lemma FailureAdded(c: Call, n: nat, rows: seq<nat>, failures: seq<ImportRowError>)
    requires 0 < n <= |c.rows| && RowsBelow(rows, n - 1) && FailuresExact(c, n - 1, rows, failures)
    requires Outcome(c, n - 1).Err?
    ensures RowsBelow(rows + [n - 1], n)
    ensures FailuresExact(c, n, rows + [n - 1], failures + [ImportRowError(n + 1, Outcome(c, n - 1).error)])
  {
    hide Outcome;
    var longer := rows + [n - 1];
    assert longer[|rows|] == n - 1;
    assert forall i: nat :: i in longer <==> i in rows || i == n - 1;
  }

  /** A failing row goes unlisted only when twenty failures precede it. */
  lemma ListedErrorsComeFirst(c: Call, i: nat)
    requires i < |c.rows| && Outcome(c, i).Err?
    ensures var errors := Tally(c, |c.rows|).errors;
            || ImportRowError(i + 2, Outcome(c, i).error) in errors
            || (|errors| == 20 && forall k :: 0 <= k < |errors| ==> errors[k].row < i + 2)
  {
    hide Outcome, Failures, FailingRows;
    var rows, all := FailingRows(c, |c.rows|), Failures(c, |c.rows|);
    FailuresAreTheFailingRows(c, |c.rows|);
    assert i in rows;
    var k :| 0 <= k < |rows| && rows[k] == i;
    assert all[k] == ImportRowError(i + 2, Outcome(c, i).error);
    var errors := First(all, MAX_IMPORT_ERRORS);
    if k < |errors| {
      assert errors[k] == all[k];
    } else {
      forall l | 0 <= l < |errors|
        ensures errors[l].row < i + 2
      {
        assert errors[l] == all[l] && rows[l] < rows[k];
      }
    }
  }

  /** Rows that end up stored, by position. */
  function AcceptedRows(c: Call, n: nat): (r: seq<nat>)
    requires n <= |c.rows|
    ensures RowsBelow(r, n)
  {
    if n == 0 then [] else AcceptedRows(c, n - 1) + (if Outcome(c, n - 1).Ok? then [n - 1] else [])
  }

  ghost predicate StoredExact(c: Call, n: nat, rows: seq<nat>, stored: seq<Transaction>)
    requires n <= |c.rows| && RowsBelow(rows, n)
  {
    && |stored| == |rows|
    && (forall k :: 0 <= k < |stored| ==> Outcome(c, rows[k]) == Ok(stored[k]))
    && (forall k :: 0 <= k < |stored| ==> stored[k].id == c.world.newId(rows[k]) && stored[k].userId == c.userId)
    && (forall i: nat :: i < n ==> (Outcome(c, i).Ok? <==> i in rows))
  }

  lemma OutcomeIsNamed(c: Call, i: nat)
    requires i < |c.rows| && Outcome(c, i).Ok?
    ensures Outcome(c, i).value.id == c.world.newId(i) && Outcome(c, i).value.userId == c.userId
  {
  }

  /** What is stored is the accepted rows' transactions, in file order. */
  lemma {:induction false} StoredAreTheAcceptedRows(c: Call, n: nat)
    requires n <= |c.rows|
    ensures StoredExact(c, n, AcceptedRows(c, n), Accepted(c, n))
  {
    hide Outcome;
    if n > 0 {
      StoredAreTheAcceptedRows(c, n - 1);
      var rows, stored := AcceptedRows(c, n - 1), Accepted(c, n - 1);
      if Outcome(c, n - 1).Ok? {
        OutcomeIsNamed(c, n - 1);
        assert AcceptedRows(c, n) == rows + [n - 1] && Accepted(c, n) == stored + [Outcome(c, n - 1).value];
      } else {
        assert AcceptedRows(c, n) == rows && Accepted(c, n) == stored;
      }
    }
  }

  // ---------- Signs ----------

  function Signed(t: Transaction): real {
    if t.kind.Income? then t.amount else -t.amount
  }

  /** The value of a cell: blank and unreadable cells weigh nothing. */
  function CellValue(cell: string, lib: Library): real {
    match ParseImportAmount(cell, lib) case Ok(x) => x case Err(_) => 0.0
  }

  /** What the statement says a row is worth to the account's holder. */
  function RowValue(row: ImportRow, lib: Library): real {
    if TrimSpace(row.amount) != "" then CellValue(row.amount, lib)
    else if CellValue(row.debit, lib) != 0.0 then -Abs(CellValue(row.debit, lib))
    else Abs(CellValue(row.credit, lib))
  }

  /** The type column is blank, or says what the sign says. */
  predicate TypeAgrees(row: ImportRow, lib: Library) {
    var text := ToLower(TrimSpace(row.kind), lib);
    text == "" || (text == "expense" <==> RowValue(row, lib) < 0.0)
  }

  lemma BlankCell(cell: string, lib: Library)
    requires TrimSpace(cell) == ""
    ensures CellValue(cell, lib) == 0.0
  {
  }

  /** A resolved amount is the row's value without its sign, and the sign gives the inferred type. */
  lemma ResolvedAmount(row: ImportRow, lib: Library)
    requires ResolveImportAmount(row, lib).Ok?
    ensures var (amount, inferred) := ResolveImportAmount(row, lib).value;
            && amount == Abs(RowValue(row, lib))
            && (inferred == Expense <==> RowValue(row, lib) < 0.0)
  {
    hide ParseImportAmount, TrimSpace, CellValue;
    CellReads(row.amount, lib);
    CellReads(row.debit, lib);
    CellReads(row.credit, lib);
  }

  lemma CellReads(cell: string, lib: Library)
    ensures TrimSpace(cell) == "" ==> CellValue(cell, lib) == 0.0
    ensures ParseImportAmount(cell, lib).Ok? ==> CellValue(cell, lib) == ParseImportAmount(cell, lib).value
  {
    if TrimSpace(cell) == "" {
      BlankCell(cell, lib);
    }
  }

  /** A stored row keeps its signed value exactly when its type column does not contradict the sign. */
  lemma SignKeptIffTypeAgrees(userId: string, account: Account, row: ImportRow, lib: Library)
    requires BuildImportedTransaction(userId, account, row, lib).Ok?
    ensures var t := BuildImportedTransaction(userId, account, row, lib).value;
            && t.amount == Abs(RowValue(row, lib))
            && (Signed(t) == RowValue(row, lib) <==> TypeAgrees(row, lib))
  {
    hide ResolveImportAmount, RowValue, ParseImportDate, Note, ToLower, TrimSpace;
    ResolvedAmount(row, lib);
  }

  function SignedTotal(s: seq<Transaction>): real {
    if s == [] then 0.0 else SignedTotal(s[..|s| - 1]) + Signed(s[|s| - 1])
  }

  /** The statement's own total over the rows that were accepted. */
  function StatementTotal(c: Call, n: nat): real
    requires n <= |c.rows|
  {
    if n == 0 then 0.0
    else StatementTotal(c, n - 1) + (if Outcome(c, n - 1).Ok? then RowValue(c.rows[n - 1], c.lib) else 0.0)
  }

  lemma {:induction false} SignedTotalKept(c: Call, n: nat)
    requires n <= |c.rows|
    requires forall i :: 0 <= i < n ==> TypeAgrees(c.rows[i], c.lib)
    ensures SignedTotal(Accepted(c, n)) == StatementTotal(c, n)
  {
    hide RowValue, TypeAgrees, BuildImportedTransaction;
    if n > 0 {
      SignedTotalKept(c, n - 1);
      if Outcome(c, n - 1).Ok? {
        SignKeptIffTypeAgrees(c.userId, c.account, c.rows[n - 1], c.lib);
        assert Accepted(c, n)[..|Accepted(c, n)| - 1] == Accepted(c, n - 1);
      } else {
        assert Accepted(c, n) == Accepted(c, n - 1);
      }
    }
  }

  /** The cell is filled and cannot be read. */
  predicate Unreadable(cell: string, lib: Library) {
    TrimSpace(cell) != "" && ParseImportAmount(cell, lib).Err?
  }

  /**
   Why a row is refused, in the order of the checks: its date, its amount or else its debit or credit cell, its
   type, and last the amount's range.
   */
  lemma RefusedBecause(userId: string, account: Account, row: ImportRow, lib: Library)
    ensures var r := BuildImportedTransaction(userId, account, row, lib);
            && (r == Err(InvalidDate) <==> ParseImportDate(row.date, lib).None?)
            && (r.Err? && r.error.BadAmount? ==> Unreadable(row.amount, lib))
            && (r.Err? && r.error.BadDebit? ==> TrimSpace(row.amount) == "" && Unreadable(row.debit, lib))
            && (r.Err? && r.error.BadCredit? ==>
                  TrimSpace(row.amount) == "" && CellValue(row.debit, lib) == 0.0 && Unreadable(row.credit, lib))
            && (r == Err(NoAmount) ==> TrimSpace(row.amount) == "" && RowValue(row, lib) == 0.0)
            && (r.Err? && r.error.BadType? ==>
                  r.error.text == row.kind && ToLower(TrimSpace(row.kind), lib) !in {"", "income", "expense"})
            && (r == Err(NotPositive) ==> TrimSpace(row.amount) != "" && RowValue(row, lib) == 0.0)
            && (r == Err(AboveMaximum) ==> Abs(RowValue(row, lib)) > 1_000_000_000_000.0)
            && r != Err(SaveFailed)
  {
    hide ParseImportAmount, ParseImportDate, TrimSpace, ToLower, Note;
    CellReads(row.amount, lib);
    CellReads(row.debit, lib);
    CellReads(row.credit, lib);
    if ResolveImportAmount(row, lib).Ok? {
      ResolvedAmount(row, lib);
    }
  }

  /** A cell left empty, or holding an amount of cents as a statement prints it. */
  function CellText(cents: Option<int>): string {
    match cents case None => "" case Some(c) => StatementText(c)
  }

  /** What a line is worth in cents: its amount, or else its debit against it, or else its credit. */
  function LineCents(amount: Option<int>, debit: Option<int>, credit: Option<int>): int {
    if amount.Some? then amount.value
    else if debit.Some? && debit.value != 0 then -(Magnitude(debit.value) as int)
    else if credit.Some? then Magnitude(credit.value)
    else 0
  }

  lemma CellOfCents(cell: string, cents: Option<int>, lib: Library)
    requires cell == CellText(cents)
    ensures TrimSpace(cell) == "" <==> cents.None?
    ensures cents.Some? ==> ParseImportAmount(cell, lib) == Ok(cents.value as real / 100.0)
  {
    hide StatementText, ParseImportAmount;
    if cents.Some? {
      StatementRoundTrip(cents.value, lib);
      StatementIsNotBlank(cents.value);
    }
  }

  lemma LineResolves(row: ImportRow, amount: Option<int>, debit: Option<int>, credit: Option<int>, lib: Library)
    requires row.amount == CellText(amount) && row.debit == CellText(debit) && row.credit == CellText(credit)
    requires LineCents(amount, debit, credit) != 0
    ensures var cents := LineCents(amount, debit, credit);
            ResolveImportAmount(row, lib)
            == Ok((Magnitude(cents) as real / 100.0, if cents < 0 then Expense else Income))
  {
    hide CellText, ParseImportAmount, TrimSpace;
    CellOfCents(row.amount, amount, lib);
    CellOfCents(row.debit, debit, lib);
    CellOfCents(row.credit, credit, lib);
  }

  /**
   A line whose date is printed in a supported layout and whose amount cells, in either column shape,
   are empty or printed with cents imports into the account as that value on that day.
   */
  lemma StatementRowImports(userId: string, account: Account, row: ImportRow, layout: Layout, day: int,
                            amount: Option<int>, debit: Option<int>, credit: Option<int>, lib: Library)
    requires Supported(layout) && 0 <= CivilOf(day).year <= 9999 && DatePrinted(row.date, layout, day)
    requires forall s :: lib.rfc3339(s).Some? ==> 'T' in s
    requires row.amount == CellText(amount) && row.debit == CellText(debit) && row.credit == CellText(credit)
        && row.kind == ""
    requires 0 < Magnitude(LineCents(amount, debit, credit)) <= 100_000_000_000_000
    ensures var r := BuildImportedTransaction(userId, account, row, lib);
            && r.Ok? && Signed(r.value) == LineCents(amount, debit, credit) as real / 100.0
            && r.value.date == Midnight(day) && r.value.userId == userId
            && r.value.accountId == account.id && r.value.currency == account.currency && r.value.categoryId.None?
            && r.value.note <= TrimSpace(row.description) && (|TrimSpace(row.description)| <= 1000 ==>
                 r.value.note == TrimSpace(row.description))
            && (|TrimSpace(row.description)| > 1000 ==> |r.value.note| == 1000)
  {
    hide ParseImportDate, ResolveImportAmount, CellText, LineCents, CivilOf, Print;
    assert "" + row.date + "" == row.date;
    DateRoundTrip(layout, day, "", "", lib);
    LineResolves(row, amount, debit, credit, lib);
    assert ToLower(TrimSpace(""), lib) == "";
  }

  predicate DatePrinted(text: string, layout: Layout, day: int) {
    Printable(CivilOf(day)) && text == Print(layout, CivilOf(day))
  }

  lemma StatementIsNotBlank(cents: int)
    ensures TrimSpace(StatementText(cents)) != ""
  {
    var v := StatementText(cents);
    StatementEdges(cents);
    assert "" + v + "" == v;
    TrimFinds("", v, "");
  }
}
