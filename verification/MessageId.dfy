/**
 The JetStream message id of a budget.overspent event: the budget's id, a colon and the period
 start in the format of RFC 3339.  Two events share an id only when they share both parts.
 */
module MessageId {
  import opened Calendar
  import opened Decimal

  function YearText(y: int): string {
    if y < 0 then "-" + Padded(-y, 4) else Padded(y, 4)
  }

  lemma YearTextSign(y: int)
    ensures YearText(y)[0] == '-' <==> y < 0
  {
    if y >= 0 {
      assert YearText(y)[0] in Padded(y, 4);
    }
  }

  lemma YearTextInjective(a: int, b: int)
    requires YearText(a) == YearText(b)
    ensures a == b
  {
    YearTextSign(a);
    YearTextSign(b);
    if a < 0 && b < 0 {
      assert YearText(a)[1..] == Padded(-a, 4) && YearText(b)[1..] == Padded(-b, 4);
      PaddedInjective(-a, -b, 4);
    } else if a >= 0 && b >= 0 {
      PaddedInjective(a, b, 4);
    }
  }

  /** Seconds since midnight. */
  function SecondOfDay(t: Instant): (s: int)
    ensures 0 <= s < 86400
  {
    t / 1_000_000_000 % 86400
  }

  /** Time.Format(time.RFC3339) of a UTC time: the fraction of the second is dropped. */
  function Rfc3339(t: Instant): string {
    var c := CivilOf(DayOf(t));
    CivilNamesDay(DayOf(t));
    var s := SecondOfDay(t);
    YearText(c.year) + (("-" + Padded(c.month, 2)) + (("-" + Padded(c.day, 2)) + ClockText(s)))
  }

  function ClockText(s: nat): string
    requires s < 86400
  {
    ("T" + Padded(s / 3600, 2)) + ((":" + Padded(s / 60 % 60, 2)) + ((":" + Padded(s % 60, 2)) + "Z"))
  }

  /** Concatenations with tails of equal length agree piece by piece. */
  lemma SplitEqual(x: string, y: string, u: string, v: string)
    requires x + u == y + v && (|u| == |v| || |x| == |y|)
    ensures x == y && u == v
  {
    assert |x| == |y|;
    assert x == (x + u)[..|x|] && y == (y + v)[..|y|];
    assert u == (x + u)[|x|..] && v == (y + v)[|y|..];
  }

  lemma FieldInjective(sep: string, a: nat, b: nat, u: string, v: string)
    requires |sep| == 1 && a < 100 && b < 100
    requires (sep + Padded(a, 2)) + u == (sep + Padded(b, 2)) + v
    ensures a == b && u == v
  {
    PaddedTwo(a);
    PaddedTwo(b);
    SplitEqual(sep + Padded(a, 2), sep + Padded(b, 2), u, v);
    SplitEqual(sep, sep, Padded(a, 2), Padded(b, 2));
    PaddedInjective(a, b, 2);
  }

  lemma ClockTextInjective(a: nat, b: nat)
    requires a < 86400 && b < 86400 && ClockText(a) == ClockText(b)
    ensures a == b
  {
    hide Padded;
    FieldInjective("T", a / 3600, b / 3600,
                   (":" + Padded(a / 60 % 60, 2)) + ((":" + Padded(a % 60, 2)) + "Z"),
                   (":" + Padded(b / 60 % 60, 2)) + ((":" + Padded(b % 60, 2)) + "Z"));
    FieldInjective(":", a / 60 % 60, b / 60 % 60, (":" + Padded(a % 60, 2)) + "Z", (":" + Padded(b % 60, 2)) + "Z");
    FieldInjective(":", a % 60, b % 60, "Z", "Z");
  }

  lemma DateTail(t: Instant)
    ensures ValidCivil(CivilOf(DayOf(t))) && CivilOf(DayOf(t)).day <= 31
    ensures |ClockText(SecondOfDay(t))| == 10
  {
    CivilNamesDay(DayOf(t));
    DayAtMost31(CivilOf(DayOf(t)));
    var s := SecondOfDay(t);
    PaddedTwo(s / 3600);
    PaddedTwo(s / 60 % 60);
    PaddedTwo(s % 60);
  }

  lemma DayAtMost31(c: Civil)
    requires ValidCivil(c)
    ensures c.day <= 31
  {
  }

  /** Equal texts come from the same second. */
  lemma Rfc3339Injective(a: Instant, b: Instant)
    requires Rfc3339(a) == Rfc3339(b)
    ensures a / 1_000_000_000 == b / 1_000_000_000
  {
    hide Padded, CivilOf, ClockText, SecondOfDay, DayOf;
    DateTail(a);
    DateTail(b);
    var ca, cb := CivilOf(DayOf(a)), CivilOf(DayOf(b));
    var ta, tb := ClockText(SecondOfDay(a)), ClockText(SecondOfDay(b));
    PaddedTwo(ca.month);
    PaddedTwo(cb.month);
    PaddedTwo(ca.day);
    PaddedTwo(cb.day);
    var ra, rb := ("-" + Padded(ca.day, 2)) + ta, ("-" + Padded(cb.day, 2)) + tb;
    SplitEqual(YearText(ca.year), YearText(cb.year),
               ("-" + Padded(ca.month, 2)) + ra, ("-" + Padded(cb.month, 2)) + rb);
    YearTextInjective(ca.year, cb.year);
    FieldInjective("-", ca.month, cb.month, ra, rb);
    FieldInjective("-", ca.day, cb.day, ta, tb);
    ClockTextInjective(SecondOfDay(a), SecondOfDay(b));
    CivilNamesDay(DayOf(a));
    CivilNamesDay(DayOf(b));
    SecondFromParts(a, b);
  }

  lemma SecondFromParts(a: Instant, b: Instant)
    requires DayOf(a) == DayOf(b) && SecondOfDay(a) == SecondOfDay(b)
    ensures a / 1_000_000_000 == b / 1_000_000_000
  {
    assert DayOf(a) == a / 1_000_000_000 / 86400;
    assert DayOf(b) == b / 1_000_000_000 / 86400;
  }

  /** PublishBudgetOverspent's dedup key. */
  function MsgId(budgetId: string, periodStart: Instant): string {
    budgetId + (":" + Rfc3339(periodStart))
  }

  /** Ids of stored documents are hexadecimal and so hold no colon. */
  predicate PlainId(id: string) {
    ':' !in id
  }

  lemma MsgIdInjective(id1: string, s1: Instant, id2: string, s2: Instant)
    requires PlainId(id1) && PlainId(id2)
    requires MsgId(id1, s1) == MsgId(id2, s2)
    requires s1 == Midnight(DayOf(s1)) && s2 == Midnight(DayOf(s2))
    ensures id1 == id2 && s1 == s2
  {
    hide Rfc3339;
    var m := MsgId(id1, s1);
    assert m[|id1|] == ':' && m[|id2|] == ':';
    assert forall i :: 0 <= i < |id1| ==> m[i] == id1[i];
    assert forall i :: 0 <= i < |id2| ==> m[i] == id2[i];
    assert |id1| == |id2|;
    SplitEqual(id1, id2, ":" + Rfc3339(s1), ":" + Rfc3339(s2));
    SplitEqual(":", ":", Rfc3339(s1), Rfc3339(s2));
    Rfc3339Injective(s1, s2);
  }
}
