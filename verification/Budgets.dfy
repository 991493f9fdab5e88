/** Budgets, their Mongo collection and the user-facing edits of budget-service. */
module Budgets {
  import opened Common
  import opened Calendar

  const MAX_AMOUNT: real := 1_000_000_000_000.0

  datatype Budget = Budget(
    id: string,
    userId: string,
    category: string,
    amount: real,
    period: Period,
    lastNotifiedAt: Option<Instant>
  )

  datatype BudgetInput = BudgetInput(category: string, amount: real, period: Period)

  datatype Failure = NotFound | Invalid(message: string) | Storage

  ghost predicate DistinctIds(docs: seq<Budget>) {
    forall i, j :: 0 <= i < j < |docs| ==> docs[i].id != docs[j].id
  }

  predicate Is(b: Budget, id: string, userId: string) {
    b.id == id && b.userId == userId
  }

  predicate Has(docs: seq<Budget>, id: string, userId: string) {
    exists b :: b in docs && Is(b, id, userId)
  }

  /** The documents a user owns, in collection order. */
  function Owned(docs: seq<Budget>, userId: string): seq<Budget> {
    if docs == [] then []
    else Owned(docs[..|docs| - 1], userId) + (if docs[|docs| - 1].userId == userId then [docs[|docs| - 1]] else [])
  }

  /** The collection after one document's mutable fields were $set to b's. */
  function SetDoc(docs: seq<Budget>, b: Budget): (r: seq<Budget>)
    ensures |r| == |docs|
  {
    seq(|docs|, i requires 0 <= i < |docs| => if Is(docs[i], b.id, b.userId) then b else docs[i])
  }

  function Without(docs: seq<Budget>, id: string, userId: string): seq<Budget> {
    Dropped(docs, (b: Budget) => Is(b, id, userId))
  }

  /** The first complaint Create and Update would make about their input. */
  function Complaint(input: BudgetInput): Option<string> {
    if input.category == "" then Some("category is required")
    else if input.amount <= 0.0 then Some("amount must be greater than zero")
    else if input.amount > MAX_AMOUNT then Some("amount exceeds the maximum allowed value")
    else if input.period.Unrecognised? then Some("period must be one of: weekly, monthly, yearly")
    else None
  }

  /** The user's edit of one document: category, amount and period change, the mark stays. */
  function Edited(docs: seq<Budget>, userId: string, id: string, input: BudgetInput): (r: seq<Budget>)
    ensures |r| == |docs|
  {
    seq(|docs|, i requires 0 <= i < |docs| =>
      if Is(docs[i], id, userId)
      then docs[i].(category := input.category, amount := input.amount, period := input.period)
      else docs[i])
  }

  /** Inputs are accepted exactly when all four fields are in order. */
  lemma AcceptedIff(input: BudgetInput)
    ensures Complaint(input).None? <==>
      && input.category != "" && 0.0 < input.amount <= 1_000_000_000_000.0
      && input.period in {Weekly, Monthly, Yearly}
  {
  }

  /** An edit writes all three fields of the one document and nothing else of it; other documents stay. */
  lemma EditWrites(docs: seq<Budget>, userId: string, id: string, input: BudgetInput, i: nat)
    requires i < |docs|
    ensures var before, after := docs[i], Edited(docs, userId, id, input)[i];
            && after.id == before.id && after.userId == before.userId && after.lastNotifiedAt == before.lastNotifiedAt
            && (before.id == id && before.userId == userId ==>
                  after.category == input.category && after.amount == input.amount && after.period == input.period)
            && (before.id != id || before.userId != userId ==> after == before)
  {
  }

  lemma {:induction false} OwnedMembers(docs: seq<Budget>, userId: string)
    ensures forall b :: b in Owned(docs, userId) <==> b in docs && b.userId == userId
    ensures DistinctIds(docs) ==> DistinctIds(Owned(docs, userId))
  {
    if docs != [] {
      OwnedMembers(docs[..|docs| - 1], userId);
      assert DistinctIds(docs) ==> forall b :: b in docs[..|docs| - 1] ==> b.id != docs[|docs| - 1].id;
      assert docs == docs[..|docs| - 1] + [docs[|docs| - 1]];
    }
  }

  lemma {:induction false} DroppingKeepsDistinct(docs: seq<Budget>, drop: Budget -> bool)
    requires DistinctIds(docs)
    ensures DistinctIds(Dropped(docs, drop))
  {
    if docs != [] {
      DroppingKeepsDistinct(docs[..|docs| - 1], drop);
      DroppedMembers(docs[..|docs| - 1], drop);
      assert forall b :: b in docs[..|docs| - 1] ==> b.id != docs[|docs| - 1].id;
    }
  }

  lemma WithoutMembers(docs: seq<Budget>, id: string, userId: string)
    ensures forall b :: b in Without(docs, id, userId) <==> b in docs && !Is(b, id, userId)
    ensures DistinctIds(docs) ==> DistinctIds(Without(docs, id, userId))
    ensures |Without(docs, id, userId)| < |docs| <==> Has(docs, id, userId)
  {
    var drop := (b: Budget) => Is(b, id, userId);
    DroppedMembers(docs, drop);
    if DistinctIds(docs) {
      DroppingKeepsDistinct(docs, drop);
    }
  }

  class BudgetRepository {
    var docs: seq<Budget>

    ghost predicate Valid()
      reads this
    {
      DistinctIds(docs)
    }

    constructor ()
      ensures Valid() && docs == []
    {
      docs := [];
    }

    /** freshId is the driver's new ObjectID, never handed out before; insertOk is the driver's answer. */
    method Create(freshId: string, userId: string, input: BudgetInput, insertOk: bool)
      returns (r: Result<Budget, Failure>)
      requires Valid()
      requires forall d :: d in docs ==> d.id != freshId
      modifies this
      ensures Valid()
      ensures r == if insertOk
                   then Ok(Budget(freshId, userId, input.category, input.amount, input.period, None))
                   else Err(Storage)
      ensures docs == old(docs) + (if r.Ok? then [r.value] else [])
    {
      if !insertOk {
        return Err(Storage);
      }
      var b := Budget(freshId, userId, input.category, input.amount, input.period, None);
      docs := docs + [b];
      r := Ok(b);
    }

    /** findOk covers the query and the reading of its cursor. */
    method ListByUser(userId: string, findOk: bool) returns (r: Result<seq<Budget>, Failure>)
      ensures r == if findOk then Ok(Owned(docs, userId)) else Err(Storage)
    {
      if !findOk {
        return Err(Storage);
      }
      var budgets: seq<Budget> := [];
      for i := 0 to |docs|
        invariant budgets == Owned(docs[..i], userId)
      {
        assert docs[..i + 1][..i] == docs[..i];
        if docs[i].userId == userId {
          budgets := budgets + [docs[i]];
        }
      }
      assert docs[..|docs|] == docs;
      r := Ok(budgets);
    }

    /** An id that is no ObjectID names no document and is never asked for: findOk is then true. */
    method GetByIDForUser(id: string, userId: string, findOk: bool) returns (r: Result<Budget, Failure>)
      ensures r.Ok? ==> r.value in docs && Is(r.value, id, userId)
      ensures r.Ok? <==> findOk && Has(docs, id, userId)
      ensures r.Err? ==> r.error == if findOk then NotFound else Storage
    {
      if !findOk {
        return Err(Storage);
      }
      for i := 0 to |docs|
        invariant forall d :: d in docs[..i] ==> !Is(d, id, userId)
      {
        if Is(docs[i], id, userId) {
          return Ok(docs[i]);
        }
      }
      r := Err(NotFound);
    }

    method Update(b: Budget, updateOk: bool) returns (failure: Option<Failure>)
      requires Valid()
      modifies this
      ensures Valid()
      ensures failure == if !updateOk then Some(Storage)
          else if Has(old(docs), b.id, b.userId) then None else Some(NotFound)
      ensures docs == if updateOk then SetDoc(old(docs), b) else old(docs)
    {
      if !updateOk {
        return Some(Storage);
      }
      var i := 0;
      while i < |docs| && !Is(docs[i], b.id, b.userId)
        invariant 0 <= i <= |docs|
        invariant forall j :: 0 <= j < i ==> !Is(docs[j], b.id, b.userId)
      {
        i := i + 1;
      }
      if i == |docs| {
        assert docs == SetDoc(docs, b);
        return Some(NotFound);
      }
      assert docs[i] in docs;
      docs := docs[i := b];
      assert docs == SetDoc(old(docs), b);
      failure := None;
    }

    method DeleteByIDForUser(id: string, userId: string, deleteOk: bool) returns (failure: Option<Failure>)
      requires Valid()
      modifies this
      ensures Valid()
      ensures failure == if !deleteOk then Some(Storage)
          else if Has(old(docs), id, userId) then None else Some(NotFound)
      ensures docs == if deleteOk then Without(old(docs), id, userId) else old(docs)
    {
      if !deleteOk {
        return Some(Storage);
      }
      var kept: seq<Budget> := [];
      for i := 0 to |docs|
        invariant docs == old(docs)
        invariant kept == Without(docs[..i], id, userId)
      {
        assert docs[..i + 1][..i] == docs[..i];
        if !Is(docs[i], id, userId) {
          kept := kept + [docs[i]];
        }
      }
      assert docs[..|docs|] == docs;
      WithoutMembers(docs, id, userId);
      failure := if |kept| < |docs| then None else Some(NotFound);
      docs := kept;
    }
  }

  class BudgetService {
    const repo: BudgetRepository

    constructor (repo: BudgetRepository)
      ensures this.repo == repo
    {
      this.repo := repo;
    }

    method Create(freshId: string, userId: string, input: BudgetInput, insertOk: bool)
      returns (r: Result<Budget, Failure>)
      requires repo.Valid()
      requires forall d :: d in repo.docs ==> d.id != freshId
      modifies repo
      ensures repo.Valid()
      ensures r == if Complaint(input).Some? then Err(Invalid(Complaint(input).value))
                   else if !insertOk then Err(Storage)
                   else Ok(Budget(freshId, userId, input.category, input.amount, input.period, None))
      ensures repo.docs == old(repo.docs) + (if r.Ok? then [r.value] else [])
    {
      var complaint := Complaint(input);
      if complaint.Some? {
        return Err(Invalid(complaint.value));
      }
      r := repo.Create(freshId, userId, input, insertOk);
    }

    /** Read, overwrite three fields, store back: what the repository stores keeps lastNotifiedAt. */
    method Update(userId: string, id: string, input: BudgetInput, findOk: bool, updateOk: bool)
      returns (r: Result<Budget, Failure>)
      requires repo.Valid()
      modifies repo
      ensures repo.Valid()
      ensures r.Err? ==> r.error == if Complaint(input).Some? then Invalid(Complaint(input).value)
                                    else if findOk && !Has(old(repo.docs), id, userId) then NotFound
                                    else Storage
      ensures r.Ok? <==> Complaint(input).None? && findOk && Has(old(repo.docs), id, userId) && updateOk
      ensures r.Ok? ==> r.value in repo.docs && Is(r.value, id, userId)
      ensures repo.docs == if r.Ok? then Edited(old(repo.docs), userId, id, input) else old(repo.docs)
    {
      var complaint := Complaint(input);
      if complaint.Some? {
        return Err(Invalid(complaint.value));
      }
      var found := repo.GetByIDForUser(id, userId, findOk);
      if found.Err? {
        return found;
      }
      var existing := found.value.(category := input.category, amount := input.amount, period := input.period);
      var failure := repo.Update(existing, updateOk);
      if failure.Some? {
        return Err(failure.value);
      }
      assert repo.docs == Edited(old(repo.docs), userId, id, input);
      ghost var k :| 0 <= k < |old(repo.docs)| && old(repo.docs)[k] == found.value;
      assert repo.docs[k] == existing;
      r := Ok(existing);
    }

    method Delete(userId: string, id: string, deleteOk: bool) returns (failure: Option<Failure>)
      requires repo.Valid()
      modifies repo
      ensures repo.Valid()
      ensures failure == if !deleteOk then Some(Storage)
          else if Has(old(repo.docs), id, userId) then None else Some(NotFound)
      ensures repo.docs == if deleteOk then Without(old(repo.docs), id, userId) else old(repo.docs)
    {
      failure := repo.DeleteByIDForUser(id, userId, deleteOk);
    }
  }
}
