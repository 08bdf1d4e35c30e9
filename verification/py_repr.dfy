/** Python's `str()` of a list of strings, which is how the web prompt
    builders hand back their source list: each item in `repr` form, separated
    by ", ", inside brackets. Characters from U+0080 up are all treated as
    printable. */
module PyRepr {

  import opened Base

  /** `repr` quotes with `"` only when the text holds `'` and no `"`. */
  function QuoteFor(s: string): (q: char)
    ensures q == '\'' || q == '"'
  {
    if '\'' in s && '"' !in s then '"' else '\''
  }

  /** A character `repr` writes out as itself. */
  predicate Printable(c: char)
  {
    ' ' <= c && c != '\\' && c as int != 0x7F
  }

  function EscapeChar(c: char, q: char): string
  {
    if c == '\\' || c == q then ['\\', c]
    else if c == '\t' then "\\t"
    else if c == '\n' then "\\n"
    else if c == '\r' then "\\r"
    else if !Printable(c) then ['\\', 'x', LowerHexDigit(c as int / 16), LowerHexDigit(c as int % 16)]
    else [c]
  }

  /** The body of a `repr` between the quotes. */
  function Escape(s: string, q: char): (r: string)
    ensures |r| >= |s|
  {
    if |s| == 0 then "" else EscapeChar(s[0], q) + Escape(s[1..], q)
  }

  /** `repr(s)` for a `str`. */
  function StrRepr(s: string): (r: string)
    ensures |r| >= |s| + 2
  {
    var q := QuoteFor(s);
    [q] + Escape(s, q) + [q]
  }

  /** The `repr` of each item, in order. */
  function Reprs(items: seq<string>): (r: seq<string>)
    ensures |r| == |items|
    ensures forall i :: 0 <= i < |items| ==> r[i] == StrRepr(items[i])
  {
    seq(|items|, i requires 0 <= i < |items| => StrRepr(items[i]))
  }

  /** `str(items)` for a list of `str`. */
  function ListRepr(items: seq<string>): (r: string)
    ensures |r| >= 2 && r[0] == '[' && r[|r| - 1] == ']'
    ensures r == "[]" <==> items == []
  {
    "[" + Join(Reprs(items), ", ") + "]"
  }

  /** How Python reads back the body of a string literal quoted with `q`. */
  function Unescape(t: string, q: char): string
  {
    if |t| == 0 then ""
    else if t[0] == '\\' && |t| >= 2 && (t[1] == '\\' || t[1] == q) then [t[1]] + Unescape(t[2..], q)
    else if t[0] == '\\' && |t| >= 2 && t[1] == 't' then "\t" + Unescape(t[2..], q)
    else if t[0] == '\\' && |t| >= 2 && t[1] == 'n' then "\n" + Unescape(t[2..], q)
    else if t[0] == '\\' && |t| >= 2 && t[1] == 'r' then "\r" + Unescape(t[2..], q)
    else if t[0] == '\\' && |t| >= 4 && t[1] == 'x' && IsHex(t[2]) && IsHex(t[3]) then
      [(16 * HexValue(t[2]) + HexValue(t[3])) as char] + Unescape(t[4..], q)
    else [t[0]] + Unescape(t[1..], q)
  }

  /** How Python reads back a quoted string literal. */
  function ReadStrLiteral(r: string): string
  {
    if |r| < 2 then "" else Unescape(r[1..|r| - 1], r[0])
  }

  lemma UnescapeChar(c: char, q: char, rest: string)
    requires q == '\'' || q == '"'
    ensures Unescape(EscapeChar(c, q) + rest, q) == [c] + Unescape(rest, q)
  {
    var e := EscapeChar(c, q);
    if c == '\\' || c == q || c == '\t' || c == '\n' || c == '\r' {
      assert (e + rest)[2..] == rest;
    } else if !Printable(c) {
      assert (e + rest)[4..] == rest;
      assert 16 * (c as int / 16) + c as int % 16 == c as int;
    } else {
      assert (e + rest)[1..] == rest;
    }
  }

  /** Reading back the escaped body gives the text again. */
  lemma {:induction false} UnescapeEscape(s: string, q: char)
    requires q == '\'' || q == '"'
    ensures Unescape(Escape(s, q), q) == s
  {
    if |s| > 0 {
      UnescapeChar(s[0], q, Escape(s[1..], q));
      UnescapeEscape(s[1..], q);
      assert [s[0]] + s[1..] == s;
    }
  }

  /** `repr` loses nothing: the literal reads back as the original text. */
  lemma ReadStrRepr(s: string)
    ensures ReadStrLiteral(StrRepr(s)) == s
  {
    var q := QuoteFor(s);
    var r := StrRepr(s);
    assert r[1..|r| - 1] == Escape(s, q);
    UnescapeEscape(s, q);
  }

  /** Where the body of a string literal quoted with `q` ends: the offset in
      `t` of the first `q` that no backslash escapes. */
  function ClosingQuote(t: string, q: char): (e: Option<nat>)
    ensures e.Some? ==> e.value < |t| && t[e.value] == q
  {
    if |t| == 0 then None
    else if t[0] == q then Some(0)
    else
      var skip := if t[0] == '\\' && |t| >= 2 then 2 else 1;
      match ClosingQuote(t[skip..], q)
      case None => None
      case Some(e) => Some(e + skip)
  }

  /** How Python reads the items of a list of string literals, starting just
      after the opening bracket. */
  function ReadItems(t: string): Option<seq<string>>
    decreases |t|
  {
    if |t| == 0 || (t[0] != '\'' && t[0] != '"') then None
    else
      match ClosingQuote(t[1..], t[0])
      case None => None
      case Some(e) =>
        var item := Unescape(t[1..e + 1], t[0]);
        var after := t[e + 2..];
        if after == "]" then Some([item])
        else if |after| >= 2 && after[..2] == ", " then
          match ReadItems(after[2..])
          case None => None
          case Some(rest) => Some([item] + rest)
        else None
  }

  /** How Python reads back a list of string literals. */
  function ReadListRepr(r: string): Option<seq<string>>
  {
    if r == "[]" then Some([])
    else if |r| > 0 && r[0] == '[' then ReadItems(r[1..])
    else None
  }

  /** An escaped character never holds an unescaped quote. */
  lemma ClosingQuoteAfterEscapeChar(c: char, q: char, rest: string, k: nat)
    requires q == '\'' || q == '"'
    requires ClosingQuote(rest, q) == Some(k)
    ensures ClosingQuote(EscapeChar(c, q) + rest, q) == Some(|EscapeChar(c, q)| + k)
  {
    var e := EscapeChar(c, q);
    var t := e + rest;
    if c == '\\' || c == q || c == '\t' || c == '\n' || c == '\r' {
      assert t[2..] == rest;
    } else if !Printable(c) {
      var t2 := t[2..];
      assert t2 == [e[2], e[3]] + rest;
      assert t2[1..] == [e[3]] + rest;
      assert t2[1..][1..] == rest;
      assert ClosingQuote(t2[1..], q) == Some(k + 1);
      assert ClosingQuote(t2, q) == Some(k + 2);
    } else {
      assert t[1..] == rest;
    }
  }

  /** The closing quote of a `repr` is the first unescaped quote after its
      escaped body, whatever follows it. */
  lemma {:induction false} ClosingQuoteAfterEscape(s: string, q: char, more: string)
    requires q == '\'' || q == '"'
    ensures ClosingQuote(Escape(s, q) + [q] + more, q) == Some(|Escape(s, q)|)
  {
    if |s| > 0 {
      var head, body := EscapeChar(s[0], q), Escape(s[1..], q);
      var tail := body + [q] + more;
      assert Escape(s, q) == head + body;
      assert Escape(s, q) + [q] + more == head + tail;
      ClosingQuoteAfterEscape(s[1..], q, more);
      ClosingQuoteAfterEscapeChar(s[0], q, tail, |body|);
    } else {
      assert Escape(s, q) + [q] + more == [q] + more;
    }
  }

  /** A list's text that starts with the `repr` of `s` yields `s` as its
      first item, and reading goes on right after the closing quote. */
  lemma ReadFirstItem(s: string, rest: string)
    ensures var t := StrRepr(s) + rest;
      var esc := Escape(s, QuoteFor(s));
      && |t| >= |esc| + 2
      && (t[0] == '\'' || t[0] == '"')
      && ClosingQuote(t[1..], t[0]) == Some(|esc|)
      && Unescape(t[1..|esc| + 1], t[0]) == s
      && t[|esc| + 2..] == rest
  {
    var q := QuoteFor(s);
    var esc := Escape(s, q);
    var t := StrRepr(s) + rest;
    assert t == [q] + esc + [q] + rest;
    assert t[1..] == esc + [q] + rest;
    ClosingQuoteAfterEscape(s, q, rest);
    assert t[1..|esc| + 1] == esc;
    UnescapeEscape(s, q);
    assert t[|esc| + 2..] == rest;
  }

  lemma ReadLastItem(s: string)
    ensures ReadItems(StrRepr(s) + "]") == Some([s])
  {
    ReadFirstItem(s, "]");
  }

  lemma ReadNextItem(s: string, more: string, others: seq<string>)
    requires ReadItems(more) == Some(others)
    ensures ReadItems(StrRepr(s) + (", " + more)) == Some([s] + others)
  {
    var rest := ", " + more;
    ReadFirstItem(s, rest);
    assert rest[..2] == ", " && rest[2..] == more;
  }

  lemma {:induction false} ReadItemsJoin(items: seq<string>)
    requires |items| > 0
    ensures ReadItems(Join(Reprs(items), ", ") + "]") == Some(items)
    decreases |items|
  {
    if |items| == 1 {
      assert Join(Reprs(items), ", ") == StrRepr(items[0]);
      ReadLastItem(items[0]);
      assert items == [items[0]];
    } else {
      var more := Join(Reprs(items[1..]), ", ") + "]";
      assert Reprs(items)[1..] == Reprs(items[1..]);
      assert Join(Reprs(items), ", ") + "]" == StrRepr(items[0]) + (", " + more);
      ReadItemsJoin(items[1..]);
      ReadNextItem(items[0], more, items[1..]);
      assert [items[0]] + items[1..] == items;
    }
  }

  /** `str()` of a list of strings loses nothing: it reads back as the list,
      item for item, whatever quotes, commas or brackets the items hold. */
  lemma ReadListReprInverse(items: seq<string>)
    ensures ReadListRepr(ListRepr(items)) == Some(items)
  {
    if |items| > 0 {
      var r := ListRepr(items);
      assert r[1..] == Join(Reprs(items), ", ") + "]";
      ReadItemsJoin(items);
    }
  }

  /** Distinct source lists are rendered as distinct texts. */
  lemma ListReprInjective(a: seq<string>, b: seq<string>)
    requires ListRepr(a) == ListRepr(b)
    ensures a == b
  {
    ReadListReprInverse(a);
    ReadListReprInverse(b);
  }

  /** Text with no single quote, backslash or control character is shown
      between single quotes exactly as it is. */
  lemma {:induction false} PlainStrRepr(s: string)
    requires forall i :: 0 <= i < |s| ==> Printable(s[i]) && s[i] != '\''
    ensures StrRepr(s) == "'" + s + "'"
  {
    PlainEscape(s);
  }

  lemma {:induction false} PlainEscape(s: string)
    requires forall i :: 0 <= i < |s| ==> Printable(s[i]) && s[i] != '\''
    ensures Escape(s, '\'') == s
  {
    if |s| > 0 {
      PlainEscape(s[1..]);
      assert [s[0]] + s[1..] == s;
    }
  }
}
