/** String helpers of Go's standard library, on sequences of code points. */
module Text {
  import opened Common
  import opened Calendar

  /**
   Library behaviour the model leaves open: the lower case of one rune, the numbers spelled other
   than as plain decimals (exponents, hexadecimal) and the RFC 3339 date parser.
   */
  datatype Library = Library(
    lower: char -> char,
    otherFloat: string -> Option<real>,
    rfc3339: string -> Option<Instant>
  )

  /** unicode.IsSpace */
  predicate IsSpace(c: char) {
    || '\t' <= c <= '\r' || c == ' ' || c == '\U{85}' || c == '\U{A0}' || c == '\U{1680}'
    || '\U{2000}' <= c <= '\U{200A}' || c == '\U{2028}' || c == '\U{2029}' || c == '\U{202F}'
    || c == '\U{205F}' || c == '\U{3000}'
  }

  predicate Blank(s: string) {
    forall i :: 0 <= i < |s| ==> IsSpace(s[i])
  }

  /** Not empty, and no space at either end. */
  predicate Edged(s: string) {
    s != "" && !IsSpace(s[0]) && !IsSpace(s[|s| - 1])
  }

  function TrimLeft(s: string): string {
    if s != "" && IsSpace(s[0]) then TrimLeft(s[1..]) else s
  }

  function TrimRight(s: string): string {
    if s != "" && IsSpace(s[|s| - 1]) then TrimRight(s[..|s| - 1]) else s
  }

  /** strings.TrimSpace */
  function TrimSpace(s: string): string {
    TrimRight(TrimLeft(s))
  }

  lemma {:induction false} TrimLeftDrops(pre: string, s: string)
    requires Blank(pre)
    ensures TrimLeft(pre + s) == TrimLeft(s)
  {
    if pre == "" {
      assert pre + s == s;
    } else {
      assert (pre + s)[1..] == pre[1..] + s;
      TrimLeftDrops(pre[1..], s);
    }
  }

  lemma {:induction false} TrimRightDrops(s: string, post: string)
    requires Blank(post)
    ensures TrimRight(s + post) == TrimRight(s)
  {
    if post == "" {
      assert s + post == s;
    } else {
      var n := |post| - 1;
      assert (s + post)[..|s + post| - 1] == s + post[..n];
      TrimRightDrops(s, post[..n]);
    }
  }

  /** Trimming finds the core whatever blanks surround it. */
  lemma TrimFinds(pre: string, core: string, post: string)
    requires Blank(pre) && Blank(post) && Edged(core)
    ensures TrimSpace(pre + core + post) == core
  {
    assert pre + core + post == pre + (core + post);
    TrimLeftDrops(pre, core + post);
    assert (core + post)[0] == core[0];
    TrimRightDrops(core, post);
  }

  /** strings.ToLower */
  function ToLower(s: string, lib: Library): string {
    seq(|s|, i requires 0 <= i < |s| => lib.lower(s[i]))
  }
}
