/** parseImportAmount: the punctuated amounts of a bank statement, read as exact decimals. */
module AmountText {
  import opened Common
  import opened Decimal
  import opened Text

  datatype AmountError = AmountRequired | NotANumber(text: string)

  // ---------- Decimal literals, the plain part of strconv.ParseFloat ----------

  /** Position of the first point, or the length. */
  function FirstPoint(s: string): (i: nat)
    ensures i <= |s|
  {
    if s == "" || s[0] == '.' then 0 else 1 + FirstPoint(s[1..])
  }

  /** The whole part plus a fraction over a power of ten. */
  function Value(whole: string, frac: string): real {
    DigitsValue(whole) as real + DigitsValue(frac) as real / Pow10(|frac|) as real
  }

  function Unsigned(s: string): Option<real> {
    var i := FirstPoint(s);
    var whole, frac := s[..i], if i < |s| then s[i + 1..] else "";
    if AllDigits(whole) && AllDigits(frac) && whole + frac != ""
    then Some(Value(whole, frac))
    else None
  }

  function Literal(s: string): Option<real> {
    if s != "" && (s[0] == '+' || s[0] == '-') then
      match Unsigned(s[1..])
      case None => None
      case Some(x) => Some(if s[0] == '-' then -x else x)
    else Unsigned(s)
  }

  function ParseFloat(s: string, lib: Library): Option<real> {
    if Literal(s).Some? then Literal(s) else lib.otherFloat(s)
  }

  // ---------- The importer's punctuation ----------

  predicate Decoration(c: char) {
    c == '$' || c == ',' || c == ' '
  }

  function Undecorated(s: string): string {
    if s == "" then ""
    else (if Decoration(s[0]) then "" else [s[0]]) + Undecorated(s[1..])
  }

  predicate Parenthesised(v: string) {
    |v| >= 2 && v[0] == '(' && v[|v| - 1] == ')'
  }

  function Abs(x: real): real {
    if x < 0.0 then -x else x
  }

  function ParseImportAmount(raw: string, lib: Library): Result<real, AmountError> {
    var v := TrimSpace(raw);
    if v == "" then Err(AmountRequired)
    else
      var negative := Parenthesised(v);
      var body := Undecorated(if negative then v[1..|v| - 1] else v);
      if body == "" then Err(AmountRequired)
      else
        match ParseFloat(body, lib)
        case None => Err(NotANumber(TrimSpace(body)))
        case Some(amount) => Ok(if negative then -Abs(amount) else amount)
  }

  // ---------- Printing ----------

  function Magnitude(c: int): nat {
    if c < 0 then -c else c
  }

  /** Whole units, a point and two digits of cents. */
  function UnsignedCents(c: nat): string {
    Padded(c / 100, 1) + ("." + Padded(c % 100, 2))
  }

  function CentsText(c: int): string {
    (if c < 0 then "-" else "") + UnsignedCents(Magnitude(c))
  }

  /** A comma before every third digit, counted from the right. */
  function Grouped(n: nat): string {
    if n < 1000 then Padded(n, 1) else Grouped(n / 1000) + ("," + Padded(n % 1000, 3))
  }

  /** As a statement would print it: -$1,234.56 */
  function StatementText(c: int): string {
    (if c < 0 then "-" else "") + ("$" + (Grouped(Magnitude(c) / 100) + ("." + Padded(Magnitude(c) % 100, 2))))
  }

  // ---------- Reading back ----------

  lemma {:induction false} PointAfter(whole: string, rest: string)
    requires '.' !in whole
    ensures FirstPoint(whole + ("." + rest)) == |whole|
  {
    if whole == "" {
      assert whole + ("." + rest) == "." + rest;
    } else {
      assert (whole + ("." + rest))[1..] == whole[1..] + ("." + rest);
      PointAfter(whole[1..], rest);
    }
  }

  lemma UnsignedValue(whole: string, frac: string)
    requires AllDigits(whole) && AllDigits(frac) && whole + frac != ""
    ensures Unsigned(whole + ("." + frac)) == Some(Value(whole, frac))
  {
    hide Value, FirstPoint;
    PointAfter(whole, frac);
    var s := whole + ("." + frac);
    assert s[..|whole|] == whole && s[|whole| + 1..] == frac;
  }

  lemma CentsArithmetic(c: nat)
    ensures Value(Padded(c / 100, 1), Padded(c % 100, 2)) == c as real / 100.0
  {
    PaddedValue(c / 100, 1);
    PaddedValue(c % 100, 2);
    PaddedTwo(c % 100);
    assert Pow10(1) == 10 && Pow10(2) == 100;
  }

  lemma UnsignedCentsValue(c: nat)
    ensures Unsigned(UnsignedCents(c)) == Some(c as real / 100.0)
    ensures UnsignedCents(c) != "" && '0' <= UnsignedCents(c)[0] <= '9'
  {
    hide Unsigned, Value;
    UnsignedValue(Padded(c / 100, 1), Padded(c % 100, 2));
    CentsArithmetic(c);
    assert UnsignedCents(c)[0] in Padded(c / 100, 1);
  }

  lemma SignedLiteral(u: string)
    requires u != "" && '0' <= u[0] <= '9'
    ensures Literal(u) == Literal("+" + u) == Unsigned(u)
    ensures Unsigned(u).Some? ==> Literal("-" + u) == Some(-Unsigned(u).value)
  {
    hide Unsigned;
    assert ("-" + u)[1..] == u && ("+" + u)[1..] == u;
  }

  lemma CentsValue(c: int)
    ensures Literal(CentsText(c)) == Some(c as real / 100.0)
    ensures c >= 0 ==> Literal("+" + CentsText(c)) == Some(c as real / 100.0)
    ensures CentsText(c) != "" && CentsText(c)[0] != '('
  {
    hide Unsigned, Literal, UnsignedCents;
    var u := UnsignedCents(Magnitude(c));
    UnsignedCentsValue(Magnitude(c));
    SignedLiteral(u);
    assert "" + u == u;
  }

  lemma {:induction false} UndecoratedAppend(a: string, b: string)
    ensures Undecorated(a + b) == Undecorated(a) + Undecorated(b)
  {
    if a == "" {
      assert a + b == b;
    } else {
      assert (a + b)[1..] == a[1..] + b;
      UndecoratedAppend(a[1..], b);
    }
  }

  lemma {:induction false} UndecoratedPlain(s: string)
    requires forall c :: c in s ==> !Decoration(c)
    ensures Undecorated(s) == s
  {
    if s != "" {
      assert s[0] in s;
      UndecoratedPlain(s[1..]);
    }
  }

  lemma {:induction false} UndecoratedKeeps(s: string)
    ensures forall c :: c in Undecorated(s) <==> c in s && !Decoration(c)
  {
    if s != "" {
      UndecoratedKeeps(s[1..]);
      assert s == [s[0]] + s[1..];
    }
  }

  predicate AmountChar(c: char) {
    '0' <= c <= '9' || c == '.' || c == '+' || c == '-'
  }

  lemma CentsChars(c: int)
    ensures forall x :: x in CentsText(c) ==> AmountChar(x)
  {
  }

  /**
   Whatever currency signs, commas and spaces are sprinkled over the printed cents, and whatever
   blanks surround it, the importer reads back the same signed value.
   */
  lemma AmountRoundTrip(pre: string, core: string, post: string, c: int, lib: Library)
    requires Blank(pre) && Blank(post) && Edged(core)
    requires Undecorated(core) == CentsText(c) || (c >= 0 && Undecorated(core) == "+" + CentsText(c))
    ensures ParseImportAmount(pre + core + post, lib) == Ok(c as real / 100.0)
  {
    hide CentsText;
    TrimFinds(pre, core, post);
    CentsValue(c);
    CentsChars(c);
    UndecoratedKeeps(core);
    assert core[0] in core;
    assert core[0] != '(';
  }

  /** Parentheses make the amount negative, whatever sign is printed inside them. */
  lemma ParenthesisedRoundTrip(pre: string, inner: string, post: string, c: int, lib: Library)
    requires Blank(pre) && Blank(post)
    requires Undecorated(inner) == CentsText(c)
    ensures ParseImportAmount(pre + ("(" + inner + ")") + post, lib) == Ok(-(Magnitude(c) as real / 100.0))
  {
    hide CentsText, Undecorated, Literal, TrimSpace;
    var core := "(" + inner + ")";
    TrimFinds(pre, core, post);
    assert core[1..|core| - 1] == inner;
    CentsValue(c);
  }

  lemma {:induction false} GroupedUndecorated(n: nat)
    ensures Undecorated(Grouped(n)) == Padded(n, 1)
  {
    hide Padded, Decoration;
    if n < 1000 {
      DigitsUndecorated(n, 1);
    } else {
      var tail := Padded(n % 1000, 3);
      GroupedUndecorated(n / 1000);
      UndecoratedAppend(Grouped(n / 1000), "," + tail);
      UndecoratedAppend(",", tail);
      OneDecoration(',');
      DigitsUndecorated(n % 1000, 3);
      PaddedThousands(n);
    }
  }

  lemma OneDecoration(c: char)
    requires Decoration(c)
    ensures Undecorated([c]) == ""
  {
    assert [c][1..] == "";
  }

  lemma DigitsUndecorated(n: nat, width: nat)
    ensures Undecorated(Padded(n, width)) == Padded(n, width)
  {
    UndecoratedPlain(Padded(n, width));
  }

  lemma StatementUndecorated(c: int)
    ensures Undecorated(StatementText(c)) == CentsText(c)
  {
    hide Padded, Grouped, Undecorated;
    var m := Magnitude(c);
    var sign := if c < 0 then "-" else "";
    var whole, cents := Grouped(m / 100), "." + Padded(m % 100, 2);
    UndecoratedAppend(sign, "$" + (whole + cents));
    UndecoratedAppend("$", whole + cents);
    UndecoratedAppend(whole, cents);
    UndecoratedPlain(sign);
    UndecoratedPlain(cents);
    OneDecoration('$');
    GroupedUndecorated(m / 100);
  }

  /** Statement text with its thousands grouped reads back, and so does its parenthesised form. */
  lemma StatementRoundTrip(c: int, lib: Library)
    ensures ParseImportAmount(StatementText(c), lib) == Ok(c as real / 100.0)
    ensures ParseImportAmount("(" + StatementText(c) + ")", lib) == Ok(-(Magnitude(c) as real / 100.0))
  {
    StatementUndecorated(c);
    StatementEdges(c);
    hide StatementText, CentsText, ParseImportAmount, Magnitude, Undecorated, Edged;
    var v, w := StatementText(c), "(" + StatementText(c) + ")";
    assert "" + v + "" == v && "" + w + "" == w;
    AmountRoundTrip("", v, "", c, lib);
    ParenthesisedRoundTrip("", v, "", c, lib);
  }

  lemma StatementEdges(c: int)
    ensures Edged(StatementText(c))
  {
    var cents := Padded(Magnitude(c) % 100, 2);
    var v := StatementText(c);
    assert v[|v| - 1] == cents[|cents| - 1];
    assert v[|v| - 1] in cents;
  }

  // ---------- Any plain decimal ----------

  /** A whole number, and a fraction of the given number of digits; none at all when that is 0. */
  function DecimalText(whole: nat, fraction: nat, digits: nat): string {
    Padded(whole, 1) + (if digits == 0 then "" else "." + Padded(fraction, digits))
  }

  lemma {:induction false} NoPoint(s: string)
    requires '.' !in s
    ensures FirstPoint(s) == |s|
  {
    if s != "" {
      NoPoint(s[1..]);
    }
  }

  lemma WholeValue(whole: string)
    requires AllDigits(whole) && whole != ""
    ensures Unsigned(whole) == Some(Value(whole, ""))
  {
    hide Value;
    NoPoint(whole);
    assert whole[..|whole|] == whole && whole + "" == whole;
  }

  lemma ValueOfPadded(whole: nat, fraction: nat, digits: nat)
    requires fraction < Pow10(digits)
    ensures Value(Padded(whole, 1), Padded(fraction, digits))
        == whole as real + fraction as real / Pow10(digits) as real
  {
    PaddedValue(whole, 1);
    PaddedValue(fraction, digits);
    PaddedLength(fraction, digits);
    hide Padded, Pow10, DigitsValue;
  }

  lemma DecimalValue(whole: nat, fraction: nat, digits: nat)
    requires fraction < Pow10(digits)
    ensures Unsigned(DecimalText(whole, fraction, digits))
         == Some(whole as real + fraction as real / Pow10(digits) as real)
    ensures DecimalText(whole, fraction, digits) != "" && '0' <= DecimalText(whole, fraction, digits)[0] <= '9'
  {
    ValueOfPadded(whole, fraction, digits);
    var w := Padded(whole, 1);
    assert w[0] in w;
    if digits == 0 {
      assert Padded(fraction, digits) == "" && w + "" == w;
      hide Unsigned, Value, Padded;
      WholeValue(w);
    } else {
      hide Unsigned, Value;
      UnsignedValue(w, Padded(fraction, digits));
    }
  }

  /**
   Every plain decimal reads as itself: any whole part, any number of digits after the point or no point at all,
   an optional sign, decorated and surrounded as before.
   */
  lemma DecimalRoundTrip(pre: string, core: string, post: string, sign: string, whole: nat, fraction: nat, digits: nat,
                         lib: Library)
    requires Blank(pre) && Blank(post) && Edged(core)
    requires fraction < Pow10(digits) && sign in {"", "+", "-"}
    requires Undecorated(core) == sign + DecimalText(whole, fraction, digits)
    ensures var x := whole as real + fraction as real / Pow10(digits) as real;
            ParseImportAmount(pre + core + post, lib) == Ok(if sign == "-" then -x else x)
  {
    hide DecimalText, Literal, Unsigned, TrimSpace;
    var u := DecimalText(whole, fraction, digits);
    TrimFinds(pre, core, post);
    DecimalValue(whole, fraction, digits);
    SignedLiteral(u);
    assert "" + u == u;
    UndecoratedKeeps(core);
    DecimalChars(whole, fraction, digits);
    assert core[0] in core;
    assert core[0] != '(';
  }

  lemma DecimalChars(whole: nat, fraction: nat, digits: nat)
    ensures forall x :: x in DecimalText(whole, fraction, digits) ==> AmountChar(x)
  {
  }

  /** An optional sign, digits, and perhaps a point and more digits; at least one digit in all. */
  ghost predicate IsDecimal(s: string, sign: string, whole: string, frac: string) {
    && sign in {"", "+", "-"} && AllDigits(whole) && AllDigits(frac) && whole + frac != ""
    && (s == sign + (whole + ("." + frac)) || (frac == "" && s == sign + whole))
  }

  lemma UnsignedShape(s: string) returns (whole: string, frac: string)
    requires Unsigned(s).Some?
    ensures AllDigits(whole) && AllDigits(frac) && whole + frac != "" && Unsigned(s) == Some(Value(whole, frac))
    ensures s == whole + ("." + frac) || (frac == "" && s == whole)
  {
    hide Value, FirstPoint;
    var i := FirstPoint(s);
    PointThere(s);
    whole, frac := s[..i], if i < |s| then s[i + 1..] else "";
    if i < |s| {
      assert s == s[..i] + ([s[i]] + s[i + 1..]);
    } else {
      assert s == s[..i];
    }
  }

  /** Only decimals are read as literals, and as what they denote. */
  lemma LiteralIsDecimal(s: string) returns (sign: string, whole: string, frac: string)
    requires Literal(s).Some?
    ensures IsDecimal(s, sign, whole, frac)
    ensures Literal(s).value == if sign == "-" then -Value(whole, frac) else Value(whole, frac)
  {
    hide Unsigned, Value, AllDigits;
    if s != "" && (s[0] == '+' || s[0] == '-') {
      sign := [s[0]];
      whole, frac := UnsignedShape(s[1..]);
      assert s == sign + s[1..];
    } else {
      sign := "";
      whole, frac := UnsignedShape(s);
      assert s == sign + s;
    }
  }

  /** Nothing but blanks, decorations and an outermost pair: an amount is required; all other refusals name the text. */
  lemma RefusalTells(v: string, lib: Library)
    ensures var body := Undecorated(Inside(TrimSpace(v)));
            var r := ParseImportAmount(v, lib);
            && (r == Err(AmountRequired) <==> body == "")
            && (r.Err? && body != "" ==> r.error == NotANumber(TrimSpace(body)))
            && (body != "" && Literal(body).Some? ==> r.Ok?)
  {
    hide Literal, TrimSpace;
  }

  // ---------- Parentheses ----------

  predicate Parenthesis(c: char) {
    c == '(' || c == ')'
  }

  /** No parenthesis anywhere. */
  predicate Flat(s: string) {
    forall i :: 0 <= i < |s| ==> !Parenthesis(s[i])
  }

  function WithoutParentheses(s: string): string {
    if s == "" then ""
    else (if Parenthesis(s[0]) then "" else [s[0]]) + WithoutParentheses(s[1..])
  }

  /** The text inside an outermost pair, or all of it when there is none. */
  function Inside(v: string): string {
    if Parenthesised(v) then v[1..|v| - 1] else v
  }

  ghost predicate RefusesParentheses(lib: Library) {
    forall s :: !Flat(s) ==> lib.otherFloat(s).None?
  }

  /** A character that no literal holds and that is no decoration is fatal once the outermost pair is gone. */
  lemma ForeignCharRefused(v: string, x: char, lib: Library)
    requires !AmountChar(x) && !Decoration(x) && x in Inside(TrimSpace(v))
    requires forall s :: x in s ==> lib.otherFloat(s).None?
    ensures ParseImportAmount(v, lib).Err?
  {
    hide TrimSpace, Literal;
    var body := Undecorated(Inside(TrimSpace(v)));
    UndecoratedKeeps(Inside(TrimSpace(v)));
    assert x in body;
    if Literal(body).Some? {
      LiteralChars(body);
    }
  }

  /** Whatever is read has no parenthesis but an outermost pair. */
  lemma ReadIsFlatInside(v: string, lib: Library)
    requires RefusesParentheses(lib)
    ensures ParseImportAmount(v, lib).Ok? ==> Flat(Inside(TrimSpace(v)))
  {
    hide ParseImportAmount, TrimSpace;
    var t := Inside(TrimSpace(v));
    if !Flat(t) {
      var i :| 0 <= i < |t| && Parenthesis(t[i]);
      assert forall s: string :: t[i] in s ==> !Flat(s);
      ForeignCharRefused(v, t[i], lib);
    }
  }

  lemma {:induction false} FlatKept(s: string)
    requires Flat(s)
    ensures WithoutParentheses(s) == s
  {
    if s != "" {
      FlatKept(s[1..]);
    }
  }

  lemma {:induction false} FlatUndecorated(s: string)
    requires Flat(s)
    ensures Flat(Undecorated(s))
  {
    UndecoratedKeeps(s);
    assert forall i :: 0 <= i < |Undecorated(s)| ==> Undecorated(s)[i] in s;
  }

  lemma {:induction false} WithoutParenthesesAppend(a: string, b: string)
    ensures WithoutParentheses(a + b) == WithoutParentheses(a) + WithoutParentheses(b)
  {
    if a == "" {
      assert a + b == b;
    } else {
      assert (a + b)[1..] == a[1..] + b;
      WithoutParenthesesAppend(a[1..], b);
    }
  }

  lemma OneParenthesis(c: char)
    requires Parenthesis(c)
    ensures WithoutParentheses(Undecorated([c])) == ""
  {
    assert [c][1..] == "";
    assert Undecorated([c]) == [c];
  }

  /** An outermost pair adds nothing to what is left without decorations and parentheses. */
  lemma PairAddsNothing(inner: string)
    ensures WithoutParentheses(Undecorated("(" + inner + ")")) == WithoutParentheses(Undecorated(inner))
  {
    hide Undecorated, WithoutParentheses;
    assert "(" + inner + ")" == "(" + (inner + ")");
    UndecoratedAppend("(", inner + ")");
    UndecoratedAppend(inner, ")");
    WithoutParenthesesAppend(Undecorated("("), Undecorated(inner) + Undecorated(")"));
    WithoutParenthesesAppend(Undecorated(inner), Undecorated(")"));
    OneParenthesis('(');
    OneParenthesis(')');
  }

  /** The printed cents are what is left inside the outermost pair, if that holds no other parenthesis. */
  lemma InsideIsCents(core: string, text: string)
    requires Flat(Inside(core)) && WithoutParentheses(Undecorated(core)) == text
    ensures Undecorated(Inside(core)) == text
  {
    hide Undecorated, WithoutParentheses;
    var inner := Inside(core);
    if Parenthesised(core) {
      assert core == "(" + inner + ")";
      PairAddsNothing(inner);
    }
    FlatUndecorated(inner);
    FlatKept(Undecorated(inner));
  }

  /**
   Text that is printed cents but for decorations and parentheses, placed anywhere, reads exactly when
   it holds no parenthesis or only an outermost pair, which makes it negative.
   */
  lemma ParenthesesReadIffOutermost(pre: string, core: string, post: string, c: int, lib: Library)
    requires Blank(pre) && Blank(post) && Edged(core) && RefusesParentheses(lib)
    requires var text := WithoutParentheses(Undecorated(core));
             text == CentsText(c) || (c >= 0 && text == "+" + CentsText(c))
    ensures var r := ParseImportAmount(pre + core + post, lib);
            && (r.Ok? <==> Flat(Inside(core)))
            && (r.Ok? ==> r.value == if Parenthesised(core) then -(Magnitude(c) as real / 100.0) else c as real / 100.0)
  {
    hide Undecorated, WithoutParentheses, CentsText, Literal, TrimSpace, Flat, RefusesParentheses;
    TrimFinds(pre, core, post);
    ReadIsFlatInside(pre + core + post, lib);
    if Flat(Inside(core)) {
      InsideIsCents(core, WithoutParentheses(Undecorated(core)));
      CentsValue(c);
    }
  }

  /** So a currency sign before the parenthesis spoils the amount, whatever is inside. */
  lemma SymbolOutsideParentheses(inner: string, lib: Library)
    requires forall s :: '(' in s ==> lib.otherFloat(s).None?
    ensures ParseImportAmount("$(" + inner + ")", lib).Err?
  {
    hide ParseImportAmount, TrimSpace;
    var v := "$(" + inner + ")";
    assert v == "" + v + "";
    TrimFinds("", v, "");
    assert v[1] == '(' && v[1] in Inside(v);
    ForeignCharRefused(v, '(', lib);
  }

  lemma UnsignedChars(s: string)
    requires Unsigned(s).Some?
    ensures forall c :: c in s ==> AmountChar(c)
  {
    hide Value, FirstPoint;
    var i := FirstPoint(s);
    PointThere(s);
    if i < |s| {
      assert s == s[..i] + [s[i]] + s[i + 1..];
    } else {
      assert s == s[..i];
    }
  }

  lemma LiteralChars(s: string)
    requires Literal(s).Some?
    ensures forall c :: c in s ==> AmountChar(c)
  {
    hide Unsigned;
    if s != "" && (s[0] == '+' || s[0] == '-') {
      UnsignedChars(s[1..]);
      assert s == [s[0]] + s[1..];
    } else {
      UnsignedChars(s);
    }
  }

  lemma {:induction false} PointThere(s: string)
    ensures FirstPoint(s) < |s| ==> s[FirstPoint(s)] == '.'
  {
    if s != "" && s[0] != '.' {
      PointThere(s[1..]);
    }
  }
}
