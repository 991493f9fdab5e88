/** parseImportDate: a statement's dates, read by time.Parse through a list of layouts. */
module ImportDates {
  import opened Common
  import opened Calendar
  import opened Decimal
  import opened MessageId
  import opened Text

  /** One chunk of a layout; an unpadded number may have one digit or two. */
  datatype Element = Year | Month(padded: bool) | Day(padded: bool) | Sep(c: char)

  type Layout = seq<Element>

  const ISO: Layout := [Year, Sep('-'), Month(true), Sep('-'), Day(true)]
  const US: Layout := [Month(true), Sep('/'), Day(true), Sep('/'), Year]
  const SHORT: Layout := [Month(false), Sep('/'), Day(false), Sep('/'), Year]

  predicate Digit(s: string, i: nat) {
    i < |s| && '0' <= s[i] <= '9'
  }

  /** The number in front of s, and what follows it: two digits, or one where padding is optional. */
  function TwoDigits(s: string, padded: bool): Option<(int, string)> {
    if !Digit(s, 0) then None
    else if Digit(s, 1) then Some((DigitsValue(s[..2]), s[2..]))
    else if padded then None
    else Some((DigitsValue(s[..1]), s[1..]))
  }

  /** time.Parse: each chunk in turn takes its part of the text, and nothing may be left over. */
  function Read(layout: Layout, s: string, c: Civil): Option<Civil> {
    if layout == [] then (if s == "" then Some(c) else None)
    else
      match layout[0]
      case Year =>
        if |s| >= 4 && AllDigits(s[..4]) then Read(layout[1..], s[4..], c.(year := DigitsValue(s[..4]))) else None
      case Month(padded) =>
        (match TwoDigits(s, padded)
         case None => None
         case Some((m, rest)) => if 1 <= m <= 12 then Read(layout[1..], rest, c.(month := m)) else None)
      case Day(padded) =>
        (match TwoDigits(s, padded)
         case None => None
         case Some((d, rest)) => Read(layout[1..], rest, c.(day := d)))
      case Sep(x) =>
        if s != "" && s[0] == x then Read(layout[1..], s[1..], c) else None
  }

  /** The midnight a text names under a layout, if it names a day that exists. */
  function ParseDay(layout: Layout, s: string): Option<Instant> {
    match Read(layout, s, Civil(0, 1, 1))
    case None => None
    case Some(c) => if ValidCivil(c) then Some(Midnight(DayNumber(c.year, c.month, c.day))) else None
  }

  function ParseImportDate(raw: string, lib: Library): Option<Instant> {
    var v := TrimSpace(raw);
    if v == "" then None
    else if lib.rfc3339(v).Some? then lib.rfc3339(v)
    else if ParseDay(ISO, v).Some? then ParseDay(ISO, v)
    else if ParseDay(US, v).Some? then ParseDay(US, v)
    else ParseDay(SHORT, v)
  }

  // ---------- Printing, and reading back ----------

  /** time.Format, for years of four digits. */
  function Print(layout: Layout, c: Civil): string
    requires Printable(c)
  {
    if layout == [] then ""
    else PrintElement(layout[0], c) + Print(layout[1..], c)
  }

  predicate Printable(c: Civil) {
    0 <= c.year <= 9999 && 0 <= c.month <= 99 && 0 <= c.day <= 99
  }

  function PrintElement(e: Element, c: Civil): string
    requires Printable(c)
  {
    match e
    case Year => Padded(c.year, 4)
    case Month(padded) => Padded(c.month, if padded then 2 else 1)
    case Day(padded) => Padded(c.day, if padded then 2 else 1)
    case Sep(x) => [x]
  }

  /** Every optional-width number is followed by a separator that is no digit. */
  predicate Unambiguous(layout: Layout) {
    forall i :: 0 <= i < |layout| && layout[i] in {Month(false), Day(false)} ==>
      i + 1 < |layout| && layout[i + 1].Sep? && !('0' <= layout[i + 1].c <= '9')
  }

  /** What reading a printed layout assigns. */
  function Assigned(layout: Layout, c: Civil, acc: Civil): Civil {
    if layout == [] then acc
    else
      Assigned(layout[1..], c,
        match layout[0]
        case Year => acc.(year := c.year)
        case Month(_) => acc.(month := c.month)
        case Day(_) => acc.(day := c.day)
        case Sep(_) => acc)
  }

  lemma DigitPair(n: nat)
    requires n < 100
    ensures |Padded(n, 2)| == 2 && Digit(Padded(n, 2), 0) && Digit(Padded(n, 2), 1)
    ensures n >= 10 ==> Padded(n, 1) == Padded(n, 2)
    ensures n < 10 ==> |Padded(n, 1)| == 1 && Digit(Padded(n, 1), 0)
    ensures DigitsValue(Padded(n, 2)) == DigitsValue(Padded(n, 1)) == n
  {
    PaddedTwo(n);
    PaddedValue(n, 2);
    PaddedValue(n, 1);
    assert Padded(0, 0) == "";
    assert n >= 10 ==> Padded(n / 10, 0) == Padded(n / 10, 1);
    var p, q := Padded(n, 2), Padded(n, 1);
    assert p[0] in p && p[1] in p && q[0] in q;
  }

  lemma TwoDigitsRead(n: nat, padded: bool, rest: string)
    requires n < 100 && (padded || !Digit(rest, 0))
    ensures TwoDigits(Padded(n, if padded then 2 else 1) + rest, padded) == Some((n, rest))
  {
    hide Padded, DigitsValue;
    DigitPair(n);
    var p := Padded(n, if padded then 2 else 1);
    assert (p + rest)[..|p|] == p && (p + rest)[|p|..] == rest;
    assert |p| == 1 ==> (Digit(p + rest, 1) <==> Digit(rest, 0));
    assert |p| == 2 ==> (p + rest)[1] == p[1];
    assert (p + rest)[0] == p[0];
  }

  lemma YearRead(y: nat, rest: string)
    requires y <= 9999
    ensures var s := Padded(y, 4) + rest;
            |s| >= 4 && s[..4] == Padded(y, 4) && s[4..] == rest && AllDigits(s[..4]) && DigitsValue(s[..4]) == y
  {
    assert Pow10(1) == 10 && Pow10(2) == 100 && Pow10(3) == 1000 && Pow10(4) == 10000;
    PaddedLength(y, 4);
    PaddedValue(y, 4);
    var s := Padded(y, 4) + rest;
    assert s[..4] == Padded(y, 4) && s[4..] == rest;
  }

  /** Reading what was printed assigns the printed fields. */
  lemma {:induction false} ReadPrinted(layout: Layout, c: Civil, acc: Civil)
    requires Printable(c) && Unambiguous(layout) && 1 <= c.month <= 12
    ensures Read(layout, Print(layout, c), acc) == Some(Assigned(layout, c, acc))
  {
    hide Padded, DigitsValue, TwoDigits, AllDigits;
    if layout != [] {
      var rest := Print(layout[1..], c);
      assert Unambiguous(layout[1..]) by {
        assert forall i :: 0 <= i < |layout| - 1 ==> layout[1..][i] == layout[i + 1];
      }
      NextIsSeparator(layout, c);
      match layout[0]
      case Year =>
        YearRead(c.year, rest);
        ReadPrinted(layout[1..], c, acc.(year := c.year));
      case Month(padded) =>
        TwoDigitsRead(c.month, padded, rest);
        ReadPrinted(layout[1..], c, acc.(month := c.month));
      case Day(padded) =>
        TwoDigitsRead(c.day, padded, rest);
        ReadPrinted(layout[1..], c, acc.(day := c.day));
      case Sep(x) =>
        assert ([x] + rest)[1..] == rest;
        ReadPrinted(layout[1..], c, acc);
    }
  }

  lemma NextIsSeparator(layout: Layout, c: Civil)
    requires Printable(c) && Unambiguous(layout) && layout != []
    ensures layout[0] in {Month(false), Day(false)} ==> !Digit(Print(layout[1..], c), 0)
  {
    if layout[0] in {Month(false), Day(false)} {
      assert layout[1..][0] == layout[1];
      assert PrintElement(layout[1], c) == [layout[1].c];
    }
  }

  /** The same layout with its padding optional. */
  function Loosened(layout: Layout): (r: Layout)
    ensures |r| == |layout|
  {
    if layout == [] then []
    else [match layout[0]
          case Month(_) => Month(false)
          case Day(_) => Day(false)
          case e => e] + Loosened(layout[1..])
  }

  /** What a padded layout reads, the loosened one reads alike. */
  lemma {:induction false} LoosenedReadsAlike(layout: Layout, s: string, acc: Civil)
    requires Read(layout, s, acc).Some?
    ensures Read(Loosened(layout), s, acc) == Read(layout, s, acc)
  {
    hide DigitsValue, AllDigits;
    if layout != [] {
      var rest := layout[1..];
      assert Loosened(layout)[1..] == Loosened(rest);
      match layout[0]
      case Year => LoosenedReadsAlike(rest, s[4..], acc.(year := DigitsValue(s[..4])));
      case Month(p) =>
        var r := TwoDigits(s, p).value;
        LoosenedReadsAlike(rest, r.1, acc.(month := r.0));
      case Day(p) =>
        var r := TwoDigits(s, p).value;
        LoosenedReadsAlike(rest, r.1, acc.(day := r.0));
      case Sep(_) => LoosenedReadsAlike(rest, s[1..], acc);
    }
  }

  /** US read as SHORT gives the same day, so trying US first changes nothing. */
  lemma UsAgreesWithShort(s: string)
    ensures ParseDay(US, s).Some? ==> ParseDay(SHORT, s) == ParseDay(US, s)
  {
    if ParseDay(US, s).Some? {
      LoosenedUs();
      LoosenedReadsAlike(US, s, Civil(0, 1, 1));
    }
  }

  lemma LoosenedUs()
    ensures Loosened(US) == SHORT
  {
    assert US[1..] == [Sep('/'), Day(true), Sep('/'), Year];
    assert US[1..][1..] == [Day(true), Sep('/'), Year];
    assert US[1..][1..][1..] == [Sep('/'), Year];
    assert US[1..][1..][1..][1..] == [Year];
    assert Loosened([Year]) == [Year];
    assert Loosened(US[1..][1..][1..]) == [Sep('/'), Year];
    assert Loosened(US[1..][1..]) == [Day(false), Sep('/'), Year];
    assert Loosened(US[1..]) == [Sep('/'), Day(false), Sep('/'), Year];
  }

  predicate DateChar(c: char) {
    '0' <= c <= '9' || c == '-' || c == '/'
  }

  lemma {:induction false} PrintChars(layout: Layout, c: Civil)
    requires Printable(c)
    requires forall x :: Sep(x) in layout ==> DateChar(x)
    ensures forall x :: x in Print(layout, c) ==> DateChar(x)
    ensures |Print(layout, c)| >= |layout|
  {
    if layout != [] {
      assert layout[0] in layout;
      PrintChars(layout[1..], c);
    }
  }

  predicate Supported(layout: Layout) {
    layout == ISO || layout == US || layout == SHORT
  }

  lemma SupportedLayouts(layout: Layout, c: Civil, acc: Civil)
    requires Supported(layout)
    ensures Unambiguous(layout) && layout != []
    ensures forall x :: Sep(x) in layout ==> DateChar(x)
    ensures Assigned(layout, c, acc) == c
  {
    hide Assigned;
    AssignsAll(layout, c, acc);
    assert layout[0] in layout && layout[2] in layout && layout[4] in layout;
  }

  lemma {:induction false} AssignsAll(layout: Layout, c: Civil, acc: Civil)
    ensures var r := Assigned(layout, c, acc);
            && r.year == (if Year in layout then c.year else acc.year)
            && r.month == (if Month(true) in layout || Month(false) in layout then c.month else acc.month)
            && r.day == (if Day(true) in layout || Day(false) in layout then c.day else acc.day)
  {
    if layout != [] {
      var next := match layout[0]
        case Year => acc.(year := c.year)
        case Month(_) => acc.(month := c.month)
        case Day(_) => acc.(day := c.day)
        case Sep(_) => acc;
      AssignsAll(layout[1..], c, next);
      assert layout == [layout[0]] + layout[1..];
    }
  }

  lemma ReadBack(layout: Layout, n: int)
    requires Supported(layout) && Printable(CivilOf(n))
    ensures ParseDay(layout, Print(layout, CivilOf(n))) == Some(Midnight(n))
  {
    hide Read, Print, CivilOf, Assigned;
    CivilNamesDay(n);
    SupportedLayouts(layout, CivilOf(n), Civil(0, 1, 1));
    ReadPrinted(layout, CivilOf(n), Civil(0, 1, 1));
  }

  /** A slash among the first four characters keeps the year-first layout from reading the text. */
  lemma SlashIsNotIso(layout: Layout, c: Civil)
    requires Printable(c) && (layout == US || layout == SHORT)
    ensures ParseDay(ISO, Print(layout, c)).None?
  {
    hide Padded;
    var s := Print(layout, c);
    var m := PrintElement(layout[0], c);
    var rest := Print(layout[1..], c);
    assert s == m + rest;
    assert PrintElement(layout[1], c) == "/";
    assert rest[0] == '/';
    DigitPair(c.month);
    assert 1 <= |m| <= 2 && s[|m|] == '/';
    if |s| >= 4 {
      assert s[..4][|m|] == '/' && s[..4][|m|] in s[..4];
    }
  }

  /** Every day of the years 0 to 9999, printed in any of the three layouts, imports as its midnight. */
  lemma DateRoundTrip(layout: Layout, n: int, pre: string, post: string, lib: Library)
    requires Supported(layout) && 0 <= CivilOf(n).year <= 9999
    requires Blank(pre) && Blank(post)
    requires forall s :: lib.rfc3339(s).Some? ==> 'T' in s
    ensures Printable(CivilOf(n))
    ensures ParseImportDate(pre + Print(layout, CivilOf(n)) + post, lib) == Some(Midnight(n))
  {
    hide Print, CivilOf, ParseDay, TrimSpace;
    var c := CivilOf(n);
    CivilNamesDay(n);
    DayIsPrintable(c);
    var s := Print(layout, c);
    SupportedLayouts(layout, c, c);
    PrintChars(layout, c);
    assert s[0] in s && s[|s| - 1] in s;
    TrimFinds(pre, s, post);
    ReadBack(layout, n);
    if layout != ISO {
      SlashIsNotIso(layout, c);
      UsAgreesWithShort(s);
    }
  }

  lemma DayIsPrintable(c: Civil)
    requires ValidCivil(c) && 0 <= c.year <= 9999
    ensures Printable(c)
  {
  }

  /** A day that does not exist is refused under every layout. */
  lemma ImpossibleDayRefused(layout: Layout, c: Civil)
    requires Supported(layout) && Printable(c) && 1 <= c.month <= 12 && !ValidCivil(c)
    ensures ParseDay(layout, Print(layout, c)).None?
  {
    hide Read, Print, Assigned;
    SupportedLayouts(layout, c, Civil(0, 1, 1));
    ReadPrinted(layout, c, Civil(0, 1, 1));
  }

  // ---------- The layouts as text ----------

  /** Year, month and day; month, day and year; the same without padding. */
  lemma LayoutTexts(c: Civil)
    requires Printable(c)
    ensures Print(ISO, c) == Padded(c.year, 4) + "-" + Padded(c.month, 2) + "-" + Padded(c.day, 2)
    ensures Print(US, c) == Padded(c.month, 2) + "/" + Padded(c.day, 2) + "/" + Padded(c.year, 4)
    ensures Print(SHORT, c) == Padded(c.month, 1) + "/" + Padded(c.day, 1) + "/" + Padded(c.year, 4)
  {
    hide Padded;
    PrintFive(ISO, c);
    PrintFive(US, c);
    PrintFive(SHORT, c);
  }

  lemma PrintFive(layout: Layout, c: Civil)
    requires Printable(c) && |layout| == 5
    ensures Print(layout, c) == PrintElement(layout[0], c) + PrintElement(layout[1], c) + PrintElement(layout[2], c)
                                + PrintElement(layout[3], c) + PrintElement(layout[4], c)
  {
    hide PrintElement;
    var l1 := layout[1..];
    var l2 := l1[1..];
    var l3 := l2[1..];
    var l4 := l3[1..];
    assert l4[1..] == [] && Print(l4[1..], c) == "";
    assert l1[0] == layout[1] && l2[0] == layout[2] && l3[0] == layout[3] && l4[0] == layout[4];
    assert Print(l4, c) == PrintElement(l4[0], c) + "";
    assert Print(l3, c) == PrintElement(l3[0], c) + Print(l4, c);
    assert Print(l2, c) == PrintElement(l2[0], c) + Print(l3, c);
    assert Print(l1, c) == PrintElement(l1[0], c) + Print(l2, c);
    assert Print(layout, c) == PrintElement(layout[0], c) + Print(l1, c);
  }

  // ---------- Nothing else is read ----------

  /** The same chunks, where a number written with two digits counts as padded. */
  predicate SameChunks(l: Layout, layout: Layout) {
    && |l| == |layout|
    && forall i :: 0 <= i < |l| ==>
         match layout[i]
         case Month(padded) => l[i].Month? && (padded ==> l[i].padded)
         case Day(padded) => l[i].Day? && (padded ==> l[i].padded)
         case e => l[i] == e
  }

  /** Year, month and day are mentioned at most once. */
  predicate NoRepeats(layout: Layout) {
    forall i, j :: 0 <= i < j < |layout| ==>
      && !(layout[i].Year? && layout[j].Year?)
      && !(layout[i].Month? && layout[j].Month?)
      && !(layout[i].Day? && layout[j].Day?)
  }

  /** Reading leaves a field alone that the layout does not mention. */
  lemma {:induction false} ReadKeeps(layout: Layout, s: string, acc: Civil)
    requires Read(layout, s, acc).Some?
    ensures (forall i :: 0 <= i < |layout| ==> !layout[i].Year?) ==> Read(layout, s, acc).value.year == acc.year
    ensures (forall i :: 0 <= i < |layout| ==> !layout[i].Month?) ==> Read(layout, s, acc).value.month == acc.month
    ensures (forall i :: 0 <= i < |layout| ==> !layout[i].Day?) ==> Read(layout, s, acc).value.day == acc.day
  {
    hide DigitsValue, AllDigits, TwoDigits;
    if layout != [] {
      var rest := layout[1..];
      assert forall i :: 0 <= i < |rest| ==> rest[i] == layout[i + 1];
      match layout[0]
      case Year => ReadKeeps(rest, s[4..], acc.(year := DigitsValue(s[..4])));
      case Month(p) =>
        var r := TwoDigits(s, p).value;
        ReadKeeps(rest, r.1, acc.(month := r.0));
      case Day(p) =>
        var r := TwoDigits(s, p).value;
        ReadKeeps(rest, r.1, acc.(day := r.0));
      case Sep(_) => ReadKeeps(rest, s[1..], acc);
    }
  }

  /** The number taken from the front of a text is written there, with two digits or one. */
  lemma TwoDigitsWritten(s: string, padded: bool) returns (two: bool)
    requires TwoDigits(s, padded).Some?
    ensures var (n, rest) := TwoDigits(s, padded).value;
            0 <= n <= 99 && (padded ==> two) && s == Padded(n, if two then 2 else 1) + rest
  {
    assert Pow10(1) == 10 && Pow10(2) == 100;
    two := Digit(s, 1);
    var text := if two then s[..2] else s[..1];
    DigitsArePadded(text);
    assert s == text + TwoDigits(s, padded).value.1;
  }

  lemma YearWritten(s: string)
    requires |s| >= 4 && AllDigits(s[..4])
    ensures 0 <= DigitsValue(s[..4]) <= 9999 && s == Padded(DigitsValue(s[..4]), 4) + s[4..]
  {
    assert Pow10(1) == 10 && Pow10(2) == 100 && Pow10(3) == 1000 && Pow10(4) == 10000;
    DigitsArePadded(s[..4]);
  }

  lemma RestOf(layout: Layout)
    requires layout != [] && NoRepeats(layout)
    ensures NoRepeats(layout[1..])
    ensures layout[0].Year? ==> forall i :: 0 <= i < |layout| - 1 ==> !layout[1..][i].Year?
    ensures layout[0].Month? ==> forall i :: 0 <= i < |layout| - 1 ==> !layout[1..][i].Month?
    ensures layout[0].Day? ==> forall i :: 0 <= i < |layout| - 1 ==> !layout[1..][i].Day?
  {
    assert forall i :: 0 <= i < |layout| - 1 ==> layout[1..][i] == layout[i + 1];
  }

  lemma Prepended(e: Element, l: Layout, head: Element, layout: Layout)
    requires layout != [] && head == layout[0] && SameChunks(l, layout[1..])
    requires SameChunks([e], [head])
    ensures SameChunks([e] + l, layout)
  {
    var all := [e] + l;
    forall i | 0 <= i < |all|
      ensures match layout[i]
              case Month(padded) => all[i].Month? && (padded ==> all[i].padded)
              case Day(padded) => all[i].Day? && (padded ==> all[i].padded)
              case x => all[i] == x
    {
      if i > 0 {
        assert all[i] == l[i - 1] && layout[i] == layout[1..][i - 1];
      } else {
        assert all[0] == [e][0] && layout[0] == [head][0];
      }
    }
  }

  /** A text that reads is the printing of what it reads as, but for the padding of unpadded numbers. */
  lemma {:induction false} ReadIsPrinted(layout: Layout, s: string, acc: Civil) returns (l: Layout)
    requires NoRepeats(layout) && Printable(acc) && Read(layout, s, acc).Some?
    ensures SameChunks(l, layout) && Printable(Read(layout, s, acc).value)
    ensures s == Print(l, Read(layout, s, acc).value)
  {
    hide DigitsValue, AllDigits, TwoDigits, Padded, NoRepeats, SameChunks;
    if layout == [] {
      l := [];
      assert SameChunks([], []) by { NoChunks(); }
    } else {
      var rest := layout[1..];
      RestOf(layout);
      match layout[0] {
        case Year =>
          YearWritten(s);
          var next := acc.(year := DigitsValue(s[..4]));
          l := ReadIsPrinted(rest, s[4..], next);
          ReadKeeps(rest, s[4..], next);
          OneChunk(Year, layout[0]);
          Prepended(Year, l, layout[0], layout);
          PrintFirst(Year, l, Read(layout, s, acc).value);
          l := [Year] + l;
        case Month(p) =>
          var two := TwoDigitsWritten(s, p);
          var r := TwoDigits(s, p).value;
          var next := acc.(month := r.0);
          l := ReadIsPrinted(rest, r.1, next);
          ReadKeeps(rest, r.1, next);
          OneChunk(Month(two), layout[0]);
          Prepended(Month(two), l, layout[0], layout);
          PrintFirst(Month(two), l, Read(layout, s, acc).value);
          l := [Month(two)] + l;
        case Day(p) =>
          var two := TwoDigitsWritten(s, p);
          var r := TwoDigits(s, p).value;
          var next := acc.(day := r.0);
          l := ReadIsPrinted(rest, r.1, next);
          ReadKeeps(rest, r.1, next);
          OneChunk(Day(two), layout[0]);
          Prepended(Day(two), l, layout[0], layout);
          PrintFirst(Day(two), l, Read(layout, s, acc).value);
          l := [Day(two)] + l;
        case Sep(x) =>
          l := ReadIsPrinted(rest, s[1..], acc);
          assert s == [x] + s[1..];
          OneChunk(Sep(x), layout[0]);
          Prepended(Sep(x), l, layout[0], layout);
          PrintFirst(Sep(x), l, Read(layout, s, acc).value);
          l := [Sep(x)] + l;
      }
    }
  }

  lemma NoChunks()
    ensures SameChunks([], [])
  {
  }

  lemma OneChunk(e: Element, head: Element)
    requires match head
             case Month(padded) => e.Month? && (padded ==> e.padded)
             case Day(padded) => e.Day? && (padded ==> e.padded)
             case x => e == x
    ensures SameChunks([e], [head])
  {
  }

  lemma PrintFirst(e: Element, l: Layout, c: Civil)
    requires Printable(c)
    ensures Print([e] + l, c) == PrintElement(e, c) + Print(l, c)
  {
    assert ([e] + l)[1..] == l;
  }

  /** In the two padded layouts a text names a day exactly when it is that day's printing. */
  lemma PaddedReadsIffPrinted(layout: Layout, s: string, n: int)
    requires layout == ISO || layout == US
    ensures ParseDay(layout, s) == Some(Midnight(n))
       <==> Printable(CivilOf(n)) && s == Print(layout, CivilOf(n))
  {
    hide Read, Print, CivilOf, SameChunks;
    if ParseDay(layout, s) == Some(Midnight(n)) {
      var c := Read(layout, s, Civil(0, 1, 1)).value;
      SupportedOnce(layout);
      var l := ReadIsPrinted(layout, s, Civil(0, 1, 1));
      PaddedStays(l, layout);
      DayNamesCivil(c);
      SameMidnight(DayNumber(c.year, c.month, c.day), n);
    }
    if Printable(CivilOf(n)) && s == Print(layout, CivilOf(n)) {
      ReadBack(layout, n);
    }
  }

  lemma SameMidnight(a: int, b: int)
    requires Midnight(a) == Midnight(b)
    ensures a == b
  {
  }

  lemma SupportedOnce(layout: Layout)
    requires Supported(layout)
    ensures NoRepeats(layout)
  {
  }

  lemma PaddedStays(l: Layout, layout: Layout)
    requires (layout == ISO || layout == US) && SameChunks(l, layout)
    ensures l == layout
  {
    assert |l| == 5;
    assert l[0] == layout[0] && l[1] == layout[1] && l[2] == layout[2] && l[3] == layout[3] && l[4] == layout[4];
  }

  /** In the unpadded layout it may also write a month or a day below ten with a zero in front; nothing else reads. */
  lemma ShortReadsOnlyPrinted(s: string, n: int) returns (l: Layout)
    requires ParseDay(SHORT, s) == Some(Midnight(n))
    ensures |l| == 5 && l[0].Month? && l[1] == Sep('/') && l[2].Day? && l[3] == Sep('/') && l[4] == Year
    ensures Printable(CivilOf(n)) && s == Print(l, CivilOf(n))
  {
    hide Read, Print, CivilOf;
    var c := Read(SHORT, s, Civil(0, 1, 1)).value;
    SupportedOnce(SHORT);
    l := ReadIsPrinted(SHORT, s, Civil(0, 1, 1));
    DayNamesCivil(c);
    SameMidnight(DayNumber(c.year, c.month, c.day), n);
  }

  /**
   The text events and queries carry, read back: for the years 0 to 9999 its first ten characters are the day
   in the year-first layout, and the rest is the time of day in UTC.
   */
  lemma Rfc3339ReadsBack(t: Instant)
    requires 0 <= CivilOf(DayOf(t)).year <= 9999
    ensures var text := Rfc3339(t);
            && |text| == 20 && ParseDay(ISO, text[..10]) == Some(Midnight(DayOf(t)))
            && text[10] == 'T' && text[13] == ':' && text[16] == ':' && text[19] == 'Z'
            && 3600 * DigitsValue(text[11..13]) + 60 * DigitsValue(text[14..16]) + DigitsValue(text[17..19])
               == t / 1_000_000_000 % 86_400
  {
    hide CivilOf, ParseDay, Padded, DigitsValue, Print;
    var c := CivilOf(DayOf(t));
    CivilNamesDay(DayOf(t));
    DayIsPrintable(c);
    LayoutTexts(c);
    ReadBack(ISO, DayOf(t));
    YearRead(c.year, "");
    DigitPair(c.month);
    DigitPair(c.day);
    var y, m, d := Padded(c.year, 4), Padded(c.month, 2), Padded(c.day, 2);
    assert |y| == 4;
    var iso := y + "-" + m + "-" + d;
    var clock := ClockText(SecondOfDay(t));
    assert Rfc3339(t) == iso + clock by {
      assert YearText(c.year) == y;
      assert y + (("-" + m) + (("-" + d) + clock)) == iso + clock;
    }
    assert |iso| == 10;
    ClockReadsBack(SecondOfDay(t));
    TailOf(iso, clock);
  }

  lemma ClockReadsBack(s: nat)
    requires s < 86400
    ensures var text := ClockText(s);
            && |text| == 10 && text[0] == 'T' && text[3] == ':' && text[6] == ':' && text[9] == 'Z'
            && 3600 * DigitsValue(text[1..3]) + 60 * DigitsValue(text[4..6]) + DigitsValue(text[7..9]) == s
  {
    hide Padded, DigitsValue;
    var h, m, n := s / 3600, s / 60 % 60, s % 60;
    DigitPair(h);
    DigitPair(m);
    DigitPair(n);
    var text := ClockText(s);
    assert text == "T" + Padded(h, 2) + ":" + Padded(m, 2) + ":" + Padded(n, 2) + "Z";
    assert text[1..3] == Padded(h, 2) && text[4..6] == Padded(m, 2) && text[7..9] == Padded(n, 2);
    ClockParts(s);
  }

  lemma ClockParts(s: nat)
    ensures 3600 * (s / 3600) + 60 * (s / 60 % 60) + s % 60 == s
  {
    assert s / 60 / 60 == s / 3600;
  }

  lemma TailOf(head: string, tail: string)
    requires |head| == 10 && |tail| == 10
    ensures var text := head + tail;
            && text[..10] == head && text[11..13] == tail[1..3] && text[14..16] == tail[4..6]
                && text[17..19] == tail[7..9]
            && text[10] == tail[0] && text[13] == tail[3] && text[16] == tail[6] && text[19] == tail[9]
  {
  }
}
