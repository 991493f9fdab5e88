/** The outbox_events collection of one service: queued events, marked once published. */
module Outbox {
  import opened Common
  import opened Calendar

  datatype Row<P> = Row(subject: string, payload: P, msgId: string, publishedAt: Option<Instant>)

  class OutboxStore<P> {
    var rows: seq<Row<P>>

    constructor ()
      ensures rows == []
    {
      rows := [];
    }

    /** insertOk is the driver's answer; a failed insert leaves the collection as it was. */
    method Enqueue(subject: string, payload: P, msgId: string, insertOk: bool) returns (ok: bool)
      modifies this
      ensures ok == insertOk
      ensures rows == old(rows) + (if ok then [Row(subject, payload, msgId, None)] else [])
    {
      if insertOk {
        rows := rows + [Row(subject, payload, msgId, None)];
      }
      ok := insertOk;
    }

    /** The cursor over {published_at: nil}, in insertion order. */
    method FindUnpublished() returns (cursor: seq<nat>)
      ensures cursor == Unpublished(rows, |rows|)
    {
      cursor := [];
      for k := 0 to |rows|
        invariant cursor == Unpublished(rows, k)
      {
        if rows[k].publishedAt.None? {
          cursor := cursor + [k];
        }
      }
    }

    /** updateOk is the driver's answer to the $set of published_at. */
    method MarkPublished(k: nat, t: Instant, updateOk: bool)
      requires k < |rows|
      modifies this
      ensures rows == if updateOk then old(rows)[k := old(rows)[k].(publishedAt := Some(t))] else old(rows)
    {
      if updateOk {
        rows := rows[k := rows[k].(publishedAt := Some(t))];
      }
    }
  }

  /** Positions below n of the events not marked yet, in order. */
  function Unpublished<P>(rows: seq<Row<P>>, n: nat): (r: seq<nat>)
    requires n <= |rows|
    ensures InRange(r, n)
  {
    if n == 0 then []
    else Unpublished(rows, n - 1) + (if rows[n - 1].publishedAt.None? then [n - 1] else [])
  }

  predicate InRange(s: seq<nat>, n: nat) {
    forall i :: 0 <= i < |s| ==> s[i] < n
  }

  ghost predicate Ascending(s: seq<nat>) {
    forall i, j :: 0 <= i < j < |s| ==> s[i] < s[j]
  }

  lemma {:induction false} UnpublishedMembers<P>(rows: seq<Row<P>>, n: nat)
    requires n <= |rows|
    ensures forall k :: k in Unpublished(rows, n) <==> 0 <= k < n && rows[k].publishedAt.None?
    ensures Ascending(Unpublished(rows, n))
  {
    if n > 0 {
      UnpublishedMembers(rows, n - 1);
      var before := Unpublished(rows, n - 1);
      assert Unpublished(rows, n) == before + (if rows[n - 1].publishedAt.None? then [n - 1] else []);
      hide Unpublished;
      AscendingSnoc(before, n - 1);
    }
  }

  lemma AscendingSnoc(s: seq<nat>, n: nat)
    requires Ascending(s) && forall x :: x in s ==> x < n
    ensures Ascending(s + [n])
  {
    assert forall i :: 0 <= i < |s| ==> s[i] in s;
  }
}
