/** What each operation on the ledger does to the money in it, told from its inputs. */
module LedgerLaws {
  import opened Common
  import opened Calendar
  import opened MessageId
  import opened Ledger
  import opened ImportColumns
  import opened Import
  import opened Transactions
  import opened PeriodSpending
  import Text

  // ---------- What a successful call stores ----------

  /** Everything the input says is in the transaction; the type is read by its exact text. */
  predicate Records(t: Transaction, input: Input) {
    && t.accountId == input.accountId && t.categoryId == input.categoryId
    && t.amount == input.amount && t.currency == input.currency && t.date == input.date && t.note == input.note
    && (t.kind == Income <==> input.kind == "income")
    && (t.kind == Expense <==> input.kind == "expense")
  }

  /** Create succeeds exactly on these inputs, and stores what it was given for the caller under the new id. */
  lemma CreateRecordsInput(userId: string, input: Input, dir: Directory, insertOk: bool, newId: string)
    ensures var r := CreateOutcome(userId, input, dir, insertOk, newId);
            && (r.Ok? <==>
                && Text.TrimSpace(input.accountId) != "" && (input.kind == "income" || input.kind == "expense")
                && 0.0 < input.amount <= 1_000_000_000_000.0
                && Text.TrimSpace(input.currency) != "" && input.date != -62_135_596_800_000_000_000
                && dir.account(input.accountId, userId).Found? && CategoryFound(dir, userId, input.categoryId)
                && insertOk)
            && (r.Ok? ==> r.value.id == newId && r.value.userId == userId && Records(r.value, input))
  {
    hide Text.TrimSpace;
  }

  /** An edit keeps the id and the owner, and records the input. */
  lemma EditRecordsInput(t: Transaction, input: Input, dir: Directory)
    requires Edited(t, input, dir).Ok?
    ensures var r := Edited(t, input, dir).value; r.id == t.id && r.userId == t.userId && Records(r, input)
  {
    hide Text.TrimSpace;
  }

  /** The queued event tells what was stored; its text carries the second of the date. */
  lemma EventTellsTransaction(t: Transaction, other: Transaction)
    ensures var e := EventRow(t).payload;
            && e.transactionId == t.id && e.userId == t.userId && e.accountId == t.accountId
            && e.categoryId == t.categoryId && e.kind == t.kind && e.amount == t.amount && e.currency == t.currency
    ensures EventRow(t).payload.date == EventRow(other).payload.date ==>
              t.date / 1_000_000_000 == other.date / 1_000_000_000
    ensures EventRow(t).subject == "finora.transaction.created" && EventRow(t).publishedAt.None?
  {
    if EventRow(t).payload.date == EventRow(other).payload.date {
      Rfc3339Injective(t.date, other.date);
    }
    hide Rfc3339;
  }

  // ---------- What it does to the sums ----------

  /** What one input adds to a user's expenses in a category and range. */
  function ExpenseOf(owner: string, input: Input, userId: string, category: string, from: Instant, to: Instant): real {
    if owner == userId && input.kind == "expense" && input.categoryId == Some(category) && from <= input.date <= to
    then input.amount
    else 0.0
  }

  /** What one stored transaction adds. */
  function Share(t: Transaction, userId: string, category: string, from: Instant, to: Instant): real {
    if IsExpenseOf(t, userId, category, from, to) then t.amount else 0.0
  }

  lemma {:induction false} ExpensesAppend(a: seq<Transaction>, b: seq<Transaction>, userId: string, category: string,
                                          from: Instant, to: Instant)
    ensures Expenses(a + b, userId, category, from, to)
         == Expenses(a, userId, category, from, to) + Expenses(b, userId, category, from, to)
    decreases |b|
  {
    hide IsExpenseOf;
    if b == [] {
      assert a + b == a;
    } else {
      var n := |b| - 1;
      assert (a + b)[..|a + b| - 1] == a + b[..n];
      ExpensesAppend(a, b[..n], userId, category, from, to);
    }
  }

  lemma OneExpense(t: Transaction, userId: string, category: string, from: Instant, to: Instant)
    ensures Expenses([t], userId, category, from, to) == Share(t, userId, category, from, to)
  {
    assert [t][..0] == [];
  }

  /**
   A created transaction adds its amount to its owner's expenses in its category and any range holding its
   date exactly when its type is expense, and changes no other sum.
   */
  lemma CreateAddsExpense(docs: seq<Transaction>, owner: string, input: Input, dir: Directory, newId: string,
                          userId: string, category: string, from: Instant, to: Instant)
    requires CreateOutcome(owner, input, dir, true, newId).Ok?
    ensures Expenses(docs + [CreateOutcome(owner, input, dir, true, newId).value], userId, category, from, to)
         == Expenses(docs, userId, category, from, to) + ExpenseOf(owner, input, userId, category, from, to)
  {
    var t := CreateOutcome(owner, input, dir, true, newId).value;
    CreateRecordsInput(owner, input, dir, true, newId);
    hide CreateOutcome, Expenses;
    ExpensesAppend(docs, [t], userId, category, from, to);
    OneExpense(t, userId, category, from, to);
  }

  /** Replacing one document of distinct ids takes its share out and puts the new one in. */
  lemma {:induction false} ReplaceMovesShare(docs: seq<Transaction>, k: nat, t: Transaction, userId: string,
                                             category: string, from: Instant, to: Instant)
    requires k < |docs| && Is(docs[k], t.id, t.userId)
    requires forall i :: 0 <= i < |docs| && i != k ==> !Is(docs[i], t.id, t.userId)
    ensures Expenses(Replaced(docs, t), userId, category, from, to)
         == Expenses(docs, userId, category, from, to) - Share(docs[k], userId, category, from, to)
            + Share(t, userId, category, from, to)
  {
    hide IsExpenseOf, Expenses;
    var before, after := docs[..k], docs[k + 1..];
    assert docs == before + ([docs[k]] + after);
    assert Replaced(docs, t) == before + ([t] + after);
    hide Replaced;
    ExpensesAppend(before, [docs[k]] + after, userId, category, from, to);
    ExpensesAppend([docs[k]], after, userId, category, from, to);
    ExpensesAppend(before, [t] + after, userId, category, from, to);
    ExpensesAppend([t], after, userId, category, from, to);
    OneExpense(docs[k], userId, category, from, to);
    OneExpense(t, userId, category, from, to);
  }

  /** An edit moves its transaction's expense from where it was to where the input says. */
  lemma UpdateMovesExpense(docs: seq<Transaction>, k: nat, input: Input, dir: Directory, userId: string,
                           category: string, from: Instant, to: Instant)
    requires k < |docs| && Edited(docs[k], input, dir).Ok?
    requires forall i :: 0 <= i < |docs| && i != k ==> !Is(docs[i], docs[k].id, docs[k].userId)
    ensures Expenses(Replaced(docs, Edited(docs[k], input, dir).value), userId, category, from, to)
         == Expenses(docs, userId, category, from, to) - Share(docs[k], userId, category, from, to)
            + ExpenseOf(docs[k].userId, input, userId, category, from, to)
  {
    var t := Edited(docs[k], input, dir).value;
    EditRecordsInput(docs[k], input, dir);
    hide Edited, Expenses, Replaced;
    ReplaceMovesShare(docs, k, t, userId, category, from, to);
  }

  lemma DroppedSnoc(docs: seq<Transaction>, drop: Transaction -> bool)
    requires docs != []
    ensures var n := |docs| - 1;
            && (drop(docs[n]) ==> Dropped(docs, drop) == Dropped(docs[..n], drop))
            && (!drop(docs[n]) ==> Dropped(docs, drop) == Dropped(docs[..n], drop) + [docs[n]])
  {
  }

  lemma ExpensesSnoc(docs: seq<Transaction>, t: Transaction, userId: string, category: string, from: Instant,
                     to: Instant)
    ensures Expenses(docs + [t], userId, category, from, to)
         == Expenses(docs, userId, category, from, to) + Share(t, userId, category, from, to)
  {
    hide Expenses;
    ExpensesAppend(docs, [t], userId, category, from, to);
    OneExpense(t, userId, category, from, to);
  }

  /** What two complementary filters leave adds up to the whole. */
  lemma {:induction false} SplitExpenses(docs: seq<Transaction>, drop: Transaction -> bool, keep: Transaction -> bool,
                                         userId: string, category: string, from: Instant, to: Instant)
    requires forall t :: keep(t) <==> !drop(t)
    ensures Expenses(docs, userId, category, from, to)
         == Expenses(Dropped(docs, drop), userId, category, from, to)
            + Expenses(Dropped(docs, keep), userId, category, from, to)
  {
    if docs == [] {
      assert Dropped(docs, drop) == [] && Dropped(docs, keep) == [];
      assert Expenses([], userId, category, from, to) == 0.0;
    } else {
      var n := |docs| - 1;
      var rest, t := docs[..n], docs[n];
      SplitExpenses(rest, drop, keep, userId, category, from, to);
      DroppedSnoc(docs, drop);
      DroppedSnoc(docs, keep);
      assert docs == rest + [t] && (keep(t) <==> !drop(t));
      var left, gone := Dropped(rest, drop), Dropped(rest, keep);
      assert if drop(t) then Dropped(docs, drop) == left && Dropped(docs, keep) == gone + [t]
             else Dropped(docs, drop) == left + [t] && Dropped(docs, keep) == gone;
      hide *;
      ExpensesSnoc(rest, t, userId, category, from, to);
      ExpensesSnoc(left, t, userId, category, from, to);
      ExpensesSnoc(gone, t, userId, category, from, to);
    }
  }

  /** A deletion takes out exactly the shares of the documents of that id and owner. */
  lemma DeleteRemovesShare(docs: seq<Transaction>, id: string, owner: string, userId: string, category: string,
                           from: Instant, to: Instant)
    ensures Expenses(docs, userId, category, from, to)
         == Expenses(Without(docs, id, owner), userId, category, from, to)
            + Expenses(Dropped(docs, (t: Transaction) => !Is(t, id, owner)), userId, category, from, to)
  {
    hide Expenses, Dropped;
    SplitExpenses(docs, (t: Transaction) => Is(t, id, owner), (t: Transaction) => !Is(t, id, owner),
                  userId, category, from, to);
  }

  /** Imported transactions carry no category. */
  lemma {:induction false} ImportedHaveNoCategory(c: Call, n: nat)
    requires n <= |c.rows|
    ensures forall t :: t in Accepted(c, n) ==> t.categoryId.None?
  {
    if n > 0 {
      ImportedHaveNoCategory(c, n - 1);
    }
  }

  lemma {:induction false} UncategorisedAddNothing(more: seq<Transaction>, userId: string, category: string,
                                                   from: Instant, to: Instant)
    requires forall t :: t in more ==> t.categoryId.None?
    ensures Expenses(more, userId, category, from, to) == 0.0
  {
    if more != [] {
      assert more[|more| - 1] in more;
      UncategorisedAddNothing(more[..|more| - 1], userId, category, from, to);
    }
  }

  /** So an import, whatever its rows, changes no category's expenses: it never counts against a budget. */
  lemma ImportsCountAgainstNoBudget(docs: seq<Transaction>, c: Call, n: nat, userId: string, category: string,
                                    from: Instant, to: Instant)
    requires n <= |c.rows|
    ensures Expenses(docs + Accepted(c, n), userId, category, from, to) == Expenses(docs, userId, category, from, to)
  {
    hide Expenses, Accepted;
    ImportedHaveNoCategory(c, n);
    UncategorisedAddNothing(Accepted(c, n), userId, category, from, to);
    ExpensesAppend(docs, Accepted(c, n), userId, category, from, to);
  }
}
