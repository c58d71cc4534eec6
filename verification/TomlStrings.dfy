/**
 * Basic strings and arrays of strings in the TOML subset (sections String and Array of TOML v1.0.0): the
 * escaping the printer does, and the two unescaping passes the parser makes.
 */
module TomlStrings {
  import opened Basics

  const BACKSLASH := '\\'
  const QUOTE := '"'

  /** `replace(/\\/g, "\\\\")` and the like: one character by a string, everywhere. */
  function ReplaceChar(s: string, c: char, with: string): string {
    if s == "" then "" else (if s[0] == c then with else [s[0]]) + ReplaceChar(s[1..], c, with)
  }

  /** `replace(/ab/g, c)` for a two-character text, scanning left to right. */
  function ReplacePair(s: string, a: char, b: char, with: char): string {
    if |s| >= 2 && s[0] == a && s[1] == b then [with] + ReplacePair(s[2..], a, b, with)
    else if s == "" then ""
    else [s[0]] + ReplacePair(s[1..], a, b, with)
  }

  function EscapeTomlString(s: string): string {
    ReplaceChar(ReplaceChar(s, BACKSLASH, "\\\\"), QUOTE, "\\\"")
  }

  /** The unescaping of a quoted slice: quotes first, then backslashes. */
  function Unescape(s: string): string {
    ReplacePair(ReplacePair(s, BACKSLASH, QUOTE, QUOTE), BACKSLASH, BACKSLASH, BACKSLASH)
  }

  function EscapedChar(c: char): string {
    if c == BACKSLASH then "\\\\" else if c == QUOTE then "\\\"" else [c]
  }

  lemma ReplaceCharOfAppend(a: string, b: string, c: char, with: string)
    ensures ReplaceChar(a + b, c, with) == ReplaceChar(a, c, with) + ReplaceChar(b, c, with)
  {
    if a == "" {
      assert a + b == b;
    } else {
      assert (a + b)[1..] == a[1..] + b;
      ReplaceCharOfAppend(a[1..], b, c, with);
    }
  }

  /** The two passes of the printer escape character by character. */
  lemma {:induction false} EscapeByChar(s: string)
    ensures s != "" ==> EscapeTomlString(s) == EscapedChar(s[0]) + EscapeTomlString(s[1..])
    ensures EscapeTomlString("") == ""
  {
    if s != "" {
      var head := if s[0] == BACKSLASH then "\\\\" else [s[0]];
      ReplaceCharOfAppend(head, ReplaceChar(s[1..], BACKSLASH, "\\\\"), QUOTE, "\\\"");
      assert "\\\\"[1..] == "\\" && "\\"[1..] == "" && [s[0]][1..] == "";
      assert ReplaceChar("\\", QUOTE, "\\\"") == "\\";
      assert ReplaceChar(head, QUOTE, "\\\"") == EscapedChar(s[0]);
    }
  }

  lemma {:induction false} EscapeStartsUnquoted(s: string)
    ensures EscapeTomlString(s) != "" ==> EscapeTomlString(s)[0] != QUOTE
    ensures EscapeTomlString(s) == "" <==> s == ""
  {
    EscapeByChar(s);
  }

  /** Unescaping undoes the printer's escaping, for every string. */
  lemma {:induction false} UnescapeOfEscape(s: string)
    ensures Unescape(EscapeTomlString(s)) == s
  {
    FirstPassOfEscape(s);
    SecondPassOfDoubled(s);
  }

  lemma {:induction false} FirstPassOfEscape(s: string)
    ensures ReplacePair(EscapeTomlString(s), BACKSLASH, QUOTE, QUOTE) == ReplaceChar(s, BACKSLASH, "\\\\")
  {
    EscapeByChar(s);
    if s != "" {
      var e, rest := EscapeTomlString(s), EscapeTomlString(s[1..]);
      FirstPassOfEscape(s[1..]);
      EscapeStartsUnquoted(s[1..]);
      if s[0] == BACKSLASH {
        assert e[1..] == ['\\'] + rest && e[1..][1..] == rest;
      } else if s[0] == QUOTE {
        assert e[2..] == rest;
      } else {
        assert e[1..] == rest;
      }
    }
  }

  lemma {:induction false} SecondPassOfDoubled(s: string)
    ensures ReplacePair(ReplaceChar(s, BACKSLASH, "\\\\"), BACKSLASH, BACKSLASH, BACKSLASH) == s
  {
    if s != "" {
      var d, rest := ReplaceChar(s, BACKSLASH, "\\\\"), ReplaceChar(s[1..], BACKSLASH, "\\\\");
      SecondPassOfDoubled(s[1..]);
      if s[0] == BACKSLASH {
        assert d == "\\\\" + rest && d[2..] == rest;
      } else {
        assert d == [s[0]] + rest && d[1..] == rest;
      }
    }
  }

  // ── Basic strings ─────────────────────────────────────────────────────────────────────────────

  /** Where the string that is open at `i` closes: a backslash hides the character after it. */
  function ClosingQuote(raw: string, i: nat): Option<nat>
    decreases |raw| - i
  {
    if i >= |raw| then None
    else if raw[i] == BACKSLASH then ClosingQuote(raw, i + 2)
    else if raw[i] == QUOTE then Some(i)
    else ClosingQuote(raw, i + 1)
  }

  function ParseTomlString(raw: string): string {
    if raw == "" || raw[0] != QUOTE then raw
    else
      match ClosingQuote(raw, 1)
      case Some(i) => if 1 <= i <= |raw| then Unescape(raw[1..i]) else raw
      case None => raw
  }

  lemma {:induction false} EscapedTextStaysOpen(before: string, s: string, after: string)
    ensures ClosingQuote(before + EscapeTomlString(s) + [QUOTE] + after, |before|) == Some(|before| + |EscapeTomlString(s)|)
    decreases |s|
  {
    var raw := before + EscapeTomlString(s) + [QUOTE] + after;
    EscapeByChar(s);
    if s != "" {
      var e := EscapedChar(s[0]);
      EscapedTextStaysOpen(before + e, s[1..], after);
      assert raw == (before + e) + EscapeTomlString(s[1..]) + [QUOTE] + after;
      assert raw[|before|] == e[0];
    } else {
      assert raw[|before|] == QUOTE;
    }
  }

  /** Printing a basic string and parsing it back is the identity, whatever the string and whatever follows on the line. */
  lemma BasicStringRoundTrip(s: string, after: string)
    ensures ParseTomlString([QUOTE] + EscapeTomlString(s) + [QUOTE] + after) == s
  {
    var raw := [QUOTE] + EscapeTomlString(s) + [QUOTE] + after;
    EscapedTextStaysOpen([QUOTE], s, after);
    assert raw[1..1 + |EscapeTomlString(s)|] == EscapeTomlString(s);
    UnescapeOfEscape(s);
  }

  /** The scanning loop itself. */
  method FindClosingQuote(raw: string) returns (at: Option<nat>)
    ensures at == ClosingQuote(raw, 1)
  {
    var i := 1;
    while i < |raw|
      invariant 1 <= i
      invariant ClosingQuote(raw, i) == ClosingQuote(raw, 1)
      decreases |raw| - i
    {
      if raw[i] == BACKSLASH {
        i := i + 2;
      } else if raw[i] == QUOTE {
        return Some(i);
      } else {
        i := i + 1;
      }
    }
    return None;
  }

  // ── Arrays of strings ─────────────────────────────────────────────────────────────────────────

  datatype Scan = Scan(items: seq<string>, inQuote: bool, escaped: bool, current: string)

  const START := Scan([], false, false, "")

  /** One character of an array's content: the escape is resolved here, and the finished item is unescaped once more. */
  function Advance(st: Scan, ch: char): Scan {
    if st.escaped then st.(current := st.current + [ch], escaped := false)
    else if ch == BACKSLASH then st.(escaped := true)
    else if ch == QUOTE then
      if st.inQuote then Scan(st.items + [Unescape(st.current)], false, false, "")
      else st.(inQuote := true)
    else if st.inQuote then st.(current := st.current + [ch])
    else st
  }

  function ScanAll(st: Scan, content: string): Scan {
    if content == "" then st else Advance(ScanAll(st, content[..|content| - 1]), content[|content| - 1])
  }

  function ParseStringArrayContent(content: string): seq<string> {
    ScanAll(START, content).items
  }

  method ScanStringArray(content: string) returns (items: seq<string>)
    ensures items == ParseStringArrayContent(content)
  {
    var inQuote, escaped, current := false, false, "";
    items := [];
    var i := 0;
    while i < |content|
      invariant 0 <= i <= |content|
      invariant Scan(items, inQuote, escaped, current) == ScanAll(START, content[..i])
    {
      var ch := content[i];
      assert content[..i + 1][..i] == content[..i];
      i := i + 1;
      if escaped {
        current, escaped := current + [ch], false;
      } else if ch == BACKSLASH {
        escaped := true;
      } else if ch == QUOTE {
        if inQuote { items, current := items + [Unescape(current)], ""; }
        inQuote := !inQuote;
      } else if inQuote {
        current := current + [ch];
      }
    }
    assert content[..i] == content;
  }

  lemma {:induction false} ScanOfAppend(st: Scan, a: string, b: string)
    ensures ScanAll(st, a + b) == ScanAll(ScanAll(st, a), b)
  {
    if b == "" {
      assert a + b == a;
    } else {
      assert (a + b)[..|a + b| - 1] == a + b[..|b| - 1];
      ScanOfAppend(st, a, b[..|b| - 1]);
    }
  }

  lemma ScanOne(st: Scan, c: char)
    ensures ScanAll(st, [c]) == Advance(st, c)
  {
    assert [c][..0] == "";
  }

  lemma ScanTwo(st: Scan, c: char, d: char)
    ensures ScanAll(st, [c, d]) == Advance(Advance(st, c), d)
  {
    assert [c, d][..1] == [c];
    ScanOne(st, c);
  }

  /** Inside quotes the printer's escaping reads back as the text itself. */
  lemma {:induction false} ScanEscaped(st: Scan, s: string)
    requires st.inQuote && !st.escaped
    ensures ScanAll(st, EscapeTomlString(s)) == st.(current := st.current + s)
    decreases |s|
  {
    EscapeByChar(s);
    if s != "" {
      var e, next := EscapedChar(s[0]), st.(current := st.current + [s[0]]);
      ScanOfAppend(st, e, EscapeTomlString(s[1..]));
      if s[0] == BACKSLASH || s[0] == QUOTE {
        ScanTwo(st, BACKSLASH, s[0]);
        assert e == [BACKSLASH, s[0]];
      } else {
        ScanOne(st, s[0]);
      }
      assert ScanAll(st, e) == next;
      ScanEscaped(next, s[1..]);
      assert st.current + s == next.current + s[1..];
    } else {
      assert st.current + s == st.current;
    }
  }

  function Quoted(s: string): string {
    [QUOTE] + EscapeTomlString(s) + [QUOTE]
  }

  lemma ScanQuoted(st: Scan, s: string)
    requires !st.inQuote && !st.escaped && st.current == ""
    ensures ScanAll(st, Quoted(s)) == st.(items := st.items + [Unescape(s)])
  {
    ScanOne(st, QUOTE);
    ScanOfAppend(st, [QUOTE], EscapeTomlString(s));
    ScanEscaped(st.(inQuote := true), s);
    ScanOfAppend(st, [QUOTE] + EscapeTomlString(s), [QUOTE]);
    ScanOne(st.(inQuote := true, current := "" + s), QUOTE);
    assert "" + s == s;
  }

  function QuotedItems(items: seq<string>): seq<string> {
    seq(|items|, i requires 0 <= i < |items| => Quoted(items[i]))
  }

  function UnescapedItems(items: seq<string>): seq<string> {
    seq(|items|, i requires 0 <= i < |items| => Unescape(items[i]))
  }

  lemma JoinQuoted(items: seq<string>)
    requires |items| > 1
    ensures Join(QuotedItems(items), ",") == Quoted(items[0]) + "," + Join(QuotedItems(items[1..]), ",")
  {
    assert QuotedItems(items)[1..] == QuotedItems(items[1..]);
  }

  lemma JoinQuotedOne(item: string)
    ensures Join(QuotedItems([item]), ",") == Quoted(item)
  {
  }

  lemma NoItems()
    ensures UnescapedItems([]) == []
  {
  }

  lemma UnescapedSplit(items: seq<string>)
    requires items != []
    ensures UnescapedItems(items) == [Unescape(items[0])] + UnescapedItems(items[1..])
  {
  }

  lemma ScanItemAndComma(st: Scan, item: string, rest: string)
    requires !st.inQuote && !st.escaped && st.current == ""
    ensures ScanAll(st, Quoted(item) + "," + rest) == ScanAll(st.(items := st.items + [Unescape(item)]), rest)
  {
    hide Quoted, Unescape, ScanAll;
    ScanQuoted(st, item);
    ScanOfAppend(st, Quoted(item) + ",", rest);
    ScanOfAppend(st, Quoted(item), ",");
    ScanOne(st.(items := st.items + [Unescape(item)]), ',');
  }

  lemma {:induction false} ScanItems(st: Scan, items: seq<string>)
    requires !st.inQuote && !st.escaped && st.current == ""
    ensures ScanAll(st, Join(QuotedItems(items), ",")) == st.(items := st.items + UnescapedItems(items))
    decreases |items|
  {
    if items == [] {
      assert st.items + [] == st.items;
      assert ScanAll(st, "") == st;
    } else {
      hide Join, Quoted, Unescape, ScanAll, QuotedItems, UnescapedItems;
      UnescapedSplit(items);
      var next := st.(items := st.items + [Unescape(items[0])]);
      if |items| == 1 {
        ScanQuoted(st, items[0]);
        JoinQuotedOne(items[0]);
        assert items == [items[0]] && items[1..] == [];
        NoItems();
      } else {
        JoinQuoted(items);
        ScanItemAndComma(st, items[0], Join(QuotedItems(items[1..]), ","));
        ScanItems(next, items[1..]);
        assert st.items + UnescapedItems(items) == next.items + UnescapedItems(items[1..]);
      }
    }
  }

  /** Parsing a printed array of strings unescapes each item once too often. */
  lemma StringArrayReadsBack(items: seq<string>)
    ensures ParseStringArrayContent(Join(QuotedItems(items), ",")) == UnescapedItems(items)
  {
    ScanItems(START, items);
    assert [] + UnescapedItems(items) == UnescapedItems(items);
  }

  /** No backslash is followed by a backslash or a quote. */
  predicate NoPairs(s: string) {
    forall i :: 0 <= i < |s| - 1 && s[i] == BACKSLASH ==> s[i + 1] != BACKSLASH && s[i + 1] != QUOTE
  }

  predicate NeverFollowed(s: string, a: char, b: char) {
    forall i :: 0 <= i < |s| - 1 && s[i] == a ==> s[i + 1] != b
  }

  /** Replacing a pair shortens exactly the texts that contain it, and leaves the others as they are. */
  lemma {:induction false} ReplacePairKeeps(s: string, a: char, b: char, with: char)
    ensures |ReplacePair(s, a, b, with)| <= |s|
    ensures |ReplacePair(s, a, b, with)| == |s| <==> NeverFollowed(s, a, b)
    ensures |ReplacePair(s, a, b, with)| == |s| ==> ReplacePair(s, a, b, with) == s
  {
    if |s| >= 2 && s[0] == a && s[1] == b {
      ReplacePairKeeps(s[2..], a, b, with);
    } else if s != "" {
      ReplacePairKeeps(s[1..], a, b, with);
      assert s == [s[0]] + s[1..];
      assert forall i :: 1 <= i < |s| - 1 ==> s[1..][i - 1] == s[i] && s[1..][i] == s[i + 1];
    }
  }

  /** The second unescaping is harmless exactly for the strings without such a pair. */
  lemma UnescapeIsIdentityExactly(s: string)
    ensures Unescape(s) == s <==> NoPairs(s)
  {
    var once := ReplacePair(s, BACKSLASH, QUOTE, QUOTE);
    ReplacePairKeeps(s, BACKSLASH, QUOTE, QUOTE);
    ReplacePairKeeps(once, BACKSLASH, BACKSLASH, BACKSLASH);
  }

  /** Printing an array of strings and parsing it back is the identity exactly when no item holds such a pair. */
  lemma StringArrayRoundTripExactly(items: seq<string>)
    ensures ParseStringArrayContent(Join(QuotedItems(items), ",")) == items <==> forall s :: s in items ==> NoPairs(s)
  {
    StringArrayReadsBack(items);
    forall i | 0 <= i < |items| ensures UnescapedItems(items)[i] == items[i] <==> NoPairs(items[i]) {
      UnescapeIsIdentityExactly(items[i]);
    }
    if forall s :: s in items ==> NoPairs(s) {
      assert UnescapedItems(items) == items;
    } else {
      var s :| s in items && !NoPairs(s);
      var i :| 0 <= i < |items| && items[i] == s;
      assert UnescapedItems(items)[i] != items[i];
    }
  }

  /** A Windows UNC path in an array loses a backslash: the input for which the identity fails. */
  lemma UncPathLosesABackslash()
    ensures ParseStringArrayContent(Join(QuotedItems(["\\\\host"]), ",")) == ["\\host"]
  {
    var s := "\\\\host";
    StringArrayReadsBack([s]);
    assert s == "\\" + "\\host" && s[1..] == "\\host" && s[2..] == "host";
    ReplacePairKeeps(s, BACKSLASH, QUOTE, QUOTE);
    assert forall i :: 0 <= i < |s| ==> s[i] != QUOTE;
    ReplacePairKeeps("host", BACKSLASH, BACKSLASH, BACKSLASH);
    assert ReplacePair(s, BACKSLASH, BACKSLASH, BACKSLASH) == ['\\'] + "host";
    assert UnescapedItems([s]) == ["\\host"];
  }
}
