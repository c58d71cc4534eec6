/** Inline tables, and one property line of a section: the parser's cursor loops and the print-then-parse identity. */
module TomlLines {
  import opened Basics
  import opened TomlStrings
  import opened TomlValues

  // ── Inline tables ─────────────────────────────────────────────────────────────────────────────

  /** The rest of a quoted text that is open at `pos`; a backslash gives the character after it. */
  function ReadOpen(content: string, pos: nat, read: string): (r: Option<(string, nat)>)
    ensures r.Some? ==> pos < r.value.1 <= |content|
    decreases |content| - pos
  {
    if pos >= |content| then None
    else if content[pos] == BACKSLASH && pos + 1 < |content| then ReadOpen(content, pos + 2, read + [content[pos + 1]])
    else if content[pos] == QUOTE then Some((read, pos + 1))
    else ReadOpen(content, pos + 1, read + [content[pos]])
  }

  function ReadQuoted(content: string, pos: nat): (r: Option<(string, nat)>)
    ensures r.Some? ==> pos < r.value.1 <= |content|
  {
    if pos < |content| && content[pos] == QUOTE then ReadOpen(content, pos + 1, "") else None
  }

  function SkipSpace(content: string, pos: nat): (r: nat)
    requires pos <= |content|
    ensures pos <= r <= |content|
    decreases |content| - pos
  {
    if pos < |content| && IsSpace(content[pos]) then SkipSpace(content, pos + 1) else pos
  }

  function SkipSeparators(content: string, pos: nat): (r: nat)
    requires pos <= |content|
    ensures pos <= r <= |content|
    decreases |content| - pos
  {
    if pos < |content| && (IsSpace(content[pos]) || content[pos] == ',') then SkipSeparators(content, pos + 1) else pos
  }

  function BareEnd(content: string, pos: nat, stop: char): (r: nat)
    requires pos <= |content|
    ensures pos <= r <= |content|
    decreases |content| - pos
  {
    if pos < |content| && content[pos] != stop && content[pos] != ',' then BareEnd(content, pos + 1, stop) else pos
  }

  /** A quoted or bare text at `pos`; a bare one runs to `stop` or a comma. */
  function ReadText(content: string, pos: nat, stop: char): (r: Option<(string, nat)>)
    requires pos <= |content|
    ensures r.Some? ==> pos <= r.value.1 <= |content|
  {
    if pos < |content| && content[pos] == QUOTE then ReadQuoted(content, pos)
    else
      var end := BareEnd(content, pos, stop);
      Some((Trim(content[pos..end]), end))
  }

  /** Assigning to this key of an object sets no property of its own when the value is a string. */
  predicate IsProto(key: string) {
    key == "__proto__"
  }

  /** `result[key] = value`: a later pair overrides an earlier one in its place. */
  function Put(entries: seq<Entry>, e: Entry): seq<Entry> {
    if IsProto(e.key) then entries
    else if entries == [] then [e]
    else if entries[0].key == e.key then [e] + entries[1..]
    else [entries[0]] + Put(entries[1..], e)
  }

  function ParsePairs(content: string, from: nat, entries: seq<Entry>): Option<seq<Entry>>
    requires from <= |content|
    decreases |content| - from
  {
    var pos := SkipSeparators(content, from);
    if pos == |content| then Some(entries)
    else
      match ReadText(content, pos, '=')
      case None => None
      case Some((key, afterKey)) =>
        var equals := SkipSpace(content, afterKey);
        if equals == |content| || content[equals] != '=' then None
        else
          match ReadText(content, SkipSpace(content, equals + 1), ',')
          case None => None
          case Some((value, afterValue)) => ParsePairs(content, afterValue, Put(entries, Entry(key, value)))
  }

  function LastIndexOf(s: string, c: char): Option<nat> {
    if s == "" then None
    else if s[|s| - 1] == c then Some(|s| - 1)
    else LastIndexOf(s[..|s| - 1], c)
  }

  function ParseInlineTable(raw: string): Option<seq<Entry>> {
    var trimmed := Trim(raw);
    match LastIndexOf(trimmed, '}')
    case None => None
    case Some(close) =>
      if trimmed[0] != '{' || close < 1 || close > |trimmed| then None
      else ParsePairs(Trim(trimmed[1..close]), 0, [])
  }

  /** The cursor loop of the inline-table parser. */
  method ScanPairs(content: string) returns (r: Option<seq<Entry>>)
    ensures r == ParsePairs(content, 0, [])
  {
    var pos, entries: seq<Entry> := 0, [];
    while pos < |content|
      invariant 0 <= pos <= |content|
      invariant ParsePairs(content, pos, entries) == ParsePairs(content, 0, [])
      decreases |content| - pos
    {
      var from := pos;
      pos := SkipSeparators(content, pos);
      if pos == |content| { break; }
      var key := ReadText(content, pos, '=');
      if key.None? { return None; }
      pos := SkipSpace(content, key.value.1);
      if pos == |content| || content[pos] != '=' { return None; }
      pos := SkipSpace(content, pos + 1);
      var value := ReadText(content, pos, ',');
      if value.None? { return None; }
      pos := value.value.1;
      entries := Put(entries, Entry(key.value.0, value.value.0));
    }
    return Some(entries);
  }

  method ScanQuoted(content: string, start: nat) returns (r: Option<(string, nat)>)
    ensures r == ReadQuoted(content, start)
  {
    if start >= |content| || content[start] != QUOTE { return None; }
    var pos, read := start + 1, "";
    while pos < |content|
      invariant start < pos
      invariant ReadOpen(content, pos, read) == ReadOpen(content, start + 1, "")
      decreases |content| - pos
    {
      var c := content[pos];
      if c == BACKSLASH && pos + 1 < |content| {
        read, pos := read + [content[pos + 1]], pos + 2;
      } else if c == QUOTE {
        return Some((read, pos + 1));
      } else {
        read, pos := read + [c], pos + 1;
      }
    }
    return None;
  }

  lemma {:induction false} EscapedReadsOpen(before: string, s: string, after: string, read: string)
    ensures ReadOpen(before + EscapeTomlString(s) + [QUOTE] + after, |before|, read) ==
              Some((read + s, |before| + |EscapeTomlString(s)| + 1))
    decreases |s|
  {
    var content := before + EscapeTomlString(s) + [QUOTE] + after;
    EscapeByChar(s);
    if s == "" {
      assert content[|before|] == QUOTE && read + s == read;
    } else {
      var e := EscapedChar(s[0]);
      assert content == (before + e) + EscapeTomlString(s[1..]) + [QUOTE] + after;
      assert content[|before|] == e[0] && (|e| == 2 ==> content[|before| + 1] == e[1]);
      EscapedReadsOpen(before + e, s[1..], after, read + [s[0]]);
      assert read + [s[0]] + s[1..] == read + s;
    }
  }

  lemma QuotedReadsBack(before: string, s: string, after: string)
    ensures ReadQuoted(before + Quoted(s) + after, |before|) == Some((s, |before| + |Quoted(s)|))
  {
    var content := before + Quoted(s) + after;
    assert content == (before + [QUOTE]) + EscapeTomlString(s) + [QUOTE] + after;
    assert content[|before|] == QUOTE;
    EscapedReadsOpen(before + [QUOTE], s, after, "");
    assert "" + s == s;
  }

  /** A pair whose key and value are read as quoted texts. */
  lemma PairAt(content: string, from: nat, n: nat, m: nat, e: Entry, entries: seq<Entry>)
    requires from < |content| && content[from] == QUOTE
    requires ReadQuoted(content, from) == Some((e.key, n)) && n + 3 < |content|
    requires content[n] == ' ' && content[n + 1] == '=' && content[n + 2] == ' ' && content[n + 3] == QUOTE
    requires ReadQuoted(content, n + 3) == Some((e.value, m))
    ensures from < m <= |content| && ParsePairs(content, from, entries) == ParsePairs(content, m, Put(entries, e))
  {
    hide ReadQuoted, Put;
    assert SkipSeparators(content, from) == from;
    assert SkipSpace(content, n) == n + 1 && SkipSpace(content, n + 2) == n + 3;
    hide SkipSeparators, SkipSpace, IsSpace, BareEnd, Trim;
  }

  /** Where the separators of a printed pair stand. */
  lemma PairShape(before: string, k: string, v: string, after: string)
    requires k != "" && v != "" && k[0] == QUOTE && v[0] == QUOTE
    ensures
      var content, n := before + (k + " = " + v) + after, |before| + |k|;
      && n + 3 < |content| && content[|before|] == QUOTE
      && content[n] == ' ' && content[n + 1] == '=' && content[n + 2] == ' ' && content[n + 3] == QUOTE
      && content == before + k + (" = " + v + after)
      && content == (before + k + " = ") + v + after
  {
    assert before + (k + " = " + v) + after == before + k + (" = " + v + after);
    assert before + (k + " = " + v) + after == (before + k + " = ") + v + after;
  }

  lemma QuotedAt(content: string, before: string, s: string, after: string)
    requires content == before + Quoted(s) + after
    ensures ReadQuoted(content, |before|) == Some((s, |before| + |Quoted(s)|))
  {
    QuotedReadsBack(before, s, after);
  }

  /** The key and the value of a printed pair, each where it stands. */
  lemma PairTexts(before: string, e: Entry, after: string)
    ensures
      var content, n := before + PrintEntry(e) + after, |before| + |Quoted(e.key)|;
      && n + 3 < |content| && content[|before|] == QUOTE
      && content[n] == ' ' && content[n + 1] == '=' && content[n + 2] == ' ' && content[n + 3] == QUOTE
      && ReadQuoted(content, |before|) == Some((e.key, n))
      && ReadQuoted(content, n + 3) == Some((e.value, |before| + |PrintEntry(e)|))
  {
    var k, v := Quoted(e.key), Quoted(e.value);
    PairShape(before, k, v, after);
    hide ReadQuoted, Quoted;
    var content := before + PrintEntry(e) + after;
    QuotedAt(content, before, e.key, " = " + v + after);
    QuotedAt(content, before + k + " = ", e.value, after);
  }

  /** One printed pair, wherever it stands, is read as its key and value. */
  lemma PairReadsBack(before: string, e: Entry, after: string, entries: seq<Entry>)
    ensures
      var content := before + PrintEntry(e) + after;
      ParsePairs(content, |before|, entries) == ParsePairs(content, |before| + |PrintEntry(e)|, Put(entries, e))
  {
    PairTexts(before, e, after);
    hide ReadQuoted, ParsePairs, Quoted, PrintEntry, Put;
    PairAt(before + PrintEntry(e) + after, |before|, |before| + |Quoted(e.key)|, |before| + |PrintEntry(e)|, e, entries);
  }

  /** The keys an object can have of its own, each once. */
  predicate UniqueKeys(entries: seq<Entry>) {
    && (forall i, j :: 0 <= i < j < |entries| ==> entries[i].key != entries[j].key)
    && (forall i :: 0 <= i < |entries| ==> !IsProto(entries[i].key))
  }

  lemma {:induction false} PutNew(entries: seq<Entry>, e: Entry)
    requires !IsProto(e.key) && forall i :: 0 <= i < |entries| ==> entries[i].key != e.key
    ensures Put(entries, e) == entries + [e]
  {
    if entries != [] { PutNew(entries[1..], e); }
  }

  lemma {:induction false} PutKeepsUnique(entries: seq<Entry>, e: Entry)
    requires UniqueKeys(entries)
    ensures UniqueKeys(Put(entries, e))
    ensures forall x :: x in Put(entries, e) ==> x == e || x in entries
  {
    if entries != [] && entries[0].key != e.key {
      PutKeepsUnique(entries[1..], e);
      assert entries == [entries[0]] + entries[1..];
      forall x | x in entries[1..] ensures x.key != entries[0].key {
        var i :| 0 <= i < |entries[1..]| && entries[1..][i] == x;
        assert entries[i + 1] == x;
      }
    }
  }

  lemma SameFromSamePlace(content: string, a: nat, b: nat, read: seq<Entry>)
    requires a <= |content| && b <= |content| && SkipSeparators(content, a) == SkipSeparators(content, b)
    ensures ParsePairs(content, a, read) == ParsePairs(content, b, read)
  {
    hide SkipSeparators, SkipSpace, ReadText, Put;
  }

  lemma NothingLeft(content: string, from: nat, read: seq<Entry>)
    requires from <= |content| && SkipSeparators(content, from) == |content|
    ensures ParsePairs(content, from, read) == Some(read)
  {
  }

  /** All printed pairs are read in order, from behind the separator or from before it. */
  lemma {:induction false} PairsReadBack(before: string, separator: string, es: seq<Entry>, read: seq<Entry>)
    requires UniqueKeys(read + es) && (separator == "" || separator == ", ") && (es == [] ==> separator == "")
    ensures
      var content := before + separator + Join(PrintedEntries(es), ", ");
      ParsePairs(content, |before|, read) == Some(read + es)
    decreases |es|
  {
    hide ParsePairs, SkipSeparators, PrintEntry, IsProto;
    var content := before + separator + Join(PrintedEntries(es), ", ");
    if es == [] {
      SeparatorsSkip(before, "", "");
      assert read + es == read && content == before + "" + "";
      NothingLeft(content, |before|, read);
    } else {
      var e, start := es[0], before + separator;
      var more := if |es| == 1 then "" else ", ";
      var rest := Join(PrintedEntries(es[1..]), ", ");
      PrintedPairs(es);
      PrintedEntryStarts(e);
      assert content == start + PrintEntry(e) + (more + rest);
      assert content == before + separator + (PrintEntry(e) + (more + rest));
      SeparatorsSkip(before, separator, PrintEntry(e) + (more + rest));
      SameFromSamePlace(content, |before|, |start|, read);
      PairReadsBack(start, e, more + rest, read);
      assert (read + es)[|read|] == e;
      forall i | 0 <= i < |read| ensures read[i].key != e.key { assert (read + es)[i] == read[i]; }
      PutNew(read, e);
      assert read + es == (read + [e]) + es[1..];
      PairsReadBack(start + PrintEntry(e), more, es[1..], read + [e]);
      assert content == (start + PrintEntry(e)) + more + rest;
    }
  }

  lemma PrintedEntryStarts(e: Entry)
    ensures PrintEntry(e) != "" && PrintEntry(e)[0] == QUOTE && PrintEntry(e)[|PrintEntry(e)| - 1] == QUOTE
  {
  }

  lemma PrintedPairs(es: seq<Entry>)
    requires es != []
    ensures Join(PrintedEntries(es), ", ") ==
              PrintEntry(es[0]) + ((if |es| == 1 then "" else ", ") + Join(PrintedEntries(es[1..]), ", "))
  {
    assert PrintedEntries(es)[1..] == PrintedEntries(es[1..]);
    if |es| == 1 { assert PrintedEntries(es[1..]) == []; }
  }

  /** Parsing from before the separators is parsing from behind them. */
  lemma SeparatorsSkip(before: string, separator: string, after: string)
    requires separator == "" || separator == ", "
    requires after == "" || (!IsSpace(after[0]) && after[0] != ',')
    ensures
      var content := before + separator + after;
      && SkipSeparators(content, |before|) == |before| + |separator|
      && SkipSeparators(content, |before| + |separator|) == |before| + |separator|
  {
    var content := before + separator + after;
    assert separator == ", " ==> content[|before|] == ',' && content[|before| + 1] == ' ';
    assert after != "" ==> content[|before| + |separator|] == after[0];
  }

  lemma TrimBothSides(s: string)
    requires Trimmed(s)
    ensures Trim(" " + s + " ") == s
  {
    TrimOfTrimmed(s);
    assert (" " + s + " ")[1..] == s + " ";
  }

  lemma LastIndexAtEnd(s: string)
    requires s != "" && s[|s| - 1] == '}'
    ensures LastIndexOf(s, '}') == Some(|s| - 1)
  {
  }

  /** A printed inline table whose keys an object can have reads back as itself. */
  lemma TableReadsBack(es: seq<Entry>)
    requires UniqueKeys(es)
    ensures ParseInlineTable(PrintValue(Table(es))) == Some(es)
  {
    hide Join, PrintEntry, ParsePairs, Trim, LastIndexOf, IsProto, UniqueKeys;
    var content := Join(PrintedEntries(es), ", ");
    var raw := "{ " + content + " }";
    TrimOfTrimmed(raw);
    LastIndexAtEnd(raw);
    assert raw[1..|raw| - 1] == " " + content + " ";
    if es == [] {
      EmptyJoin();
    } else {
      forall i | 0 <= i < |PrintedEntries(es)| ensures PrintedEntries(es)[i] != "" { PrintedEntryStarts(es[i]); }
      JoinEnds(PrintedEntries(es), ", ");
      PrintedEntryStarts(es[0]);
      PrintedEntryStarts(es[|es| - 1]);
    }
    TrimBothSides(content);
    assert [] + es == es && "" + "" + content == content;
    PairsReadBack("", "", es, []);
  }

  /** Exactly the tables with such keys read back: no other list of pairs is ever the result of a parse. */
  lemma TableReadsBackExactly(es: seq<Entry>)
    ensures ParseInlineTable(PrintValue(Table(es))) == Some(es) <==> UniqueKeys(es)
  {
    hide ParseInlineTable, UniqueKeys;
    TableIsUnique(PrintValue(Table(es)));
    if UniqueKeys(es) { TableReadsBack(es); }
  }

  lemma EmptyJoin()
    ensures Join(PrintedEntries([]), ", ") == ""
  {
  }

  // ── Property lines ────────────────────────────────────────────────────────────────────────────

  function StripInlineComment(value: string): string {
    match IndexOf(value, '#')
    case Some(i) => if i <= |value| then TrimEnd(value[..i]) else value
    case None => value
  }

  /** What one line of a section sets: nothing, or one key. */
  function ParseProperty(line: string): Option<(string, Value)> {
    var t := Trim(line);
    if t == "" || t[0] == '#' then None
    else
      match IndexOf(t, '=')
      case None => None
      case Some(eq) =>
        if eq >= |t| then None
        else
          var key, raw := Trim(t[..eq]), Trim(t[eq + 1..]);
          match ParseRawValue(raw) case Some(v) => Some((key, v)) case None => None
  }

  function ParseRawValue(raw: string): Option<Value> {
    if raw != "" && raw[0] == '[' then Some(ParseTypedArray(StripArrayInlineComment(raw)))
    else if raw != "" && raw[0] == QUOTE then Some(Text(ParseTomlString(raw)))
    else if raw != "" && raw[0] == '{' then
      Some(match ParseInlineTable(raw) case Some(es) => Table(es) case None => Raw(raw))
    else
      var scalar := StripInlineComment(raw);
      if scalar == "true" || scalar == "false" then Some(Bool(scalar == "true"))
      else if IsInteger(scalar) then Some(Number(IntegerValue(scalar)))
      else if scalar != "" then Some(Raw(scalar))
      else None
  }

  /** Keys a printed line keeps: any trimmed text without `=` that does not start a comment or a section header. */
  predicate GoodKey(key: string) {
    Trimmed(key) && '=' !in key && (key != "" ==> key[0] != '#' && key[0] != '[')
  }

  predicate BareChar(c: char) {
    'a' <= c <= 'z' || 'A' <= c <= 'Z' || IsDigit(c) || c == '_' || c == '-'
  }

  /** Values whose printed form is read back as the same value. */
  predicate Printable(v: Value) {
    match v
    case Text(_) => true
    case Number(_) => true
    case Bool(_) => true
    case Texts(items) => forall s :: s in items ==> NoPairs(s)
    case Numbers(items) => items != []
    case Bools(items) => items != []
    case Table(entries) => UniqueKeys(entries)
    case Raw(raw) => Trimmed(raw) && ParseRawValue(raw) == Some(v)
  }

  /** A text between two characters that are no spaces. */
  lemma BracketedIsTrimmed(first: char, inner: string, last: char)
    requires !IsSpace(first) && !IsSpace(last)
    ensures [first] + inner + [last] != "" && Trimmed([first] + inner + [last])
  {
    hide IsSpace;
  }

  lemma PrintedScalarIsTrimmed(v: Value)
    requires v.Number? || v.Bool?
    ensures PrintValue(v) != "" && Trimmed(PrintValue(v))
  {
    hide Decimal;
    if v.Number? { IntegerReadsBack(v.number); } else { PrintedBoolIsPlain(v.flag); }
  }

  lemma PrintedValueIsTrimmed(v: Value)
    requires Printable(v)
    ensures PrintValue(v) != "" && Trimmed(PrintValue(v))
  {
    assert !IsSpace('[') && !IsSpace(']') && !IsSpace('{') && !IsSpace('}') && !IsSpace(QUOTE);
    hide ParseRawValue, Join, EscapeTomlString, Decimal, PrintBool, IsSpace, Trimmed;
    match v
    case Text(s) => BracketedIsTrimmed(QUOTE, EscapeTomlString(s), QUOTE);
    case Number(n) => PrintedScalarIsTrimmed(v);
    case Bool(b) => PrintedScalarIsTrimmed(v);
    case Texts(items) => BracketedIsTrimmed('[', Join(QuotedItems(items), ","), ']');
    case Numbers(items) => BracketedIsTrimmed('[', Join(PrintedNumbers(items), ","), ']');
    case Bools(items) => BracketedIsTrimmed('[', Join(PrintedBools(items), ","), ']');
    case Table(entries) =>
      var inner := Join(PrintedEntries(entries), ", ");
      assert "{ " + inner + " }" == ['{'] + (" " + inner + " ") + ['}'];
      BracketedIsTrimmed('{', " " + inner + " ", '}');
    case Raw(raw) => EmptyRaw();
  }

  lemma EmptyRaw()
    ensures ParseRawValue("").None?
  {
    assert StripInlineComment("") == "";
  }

  lemma NumberReadsBack(n: int)
    ensures ParseRawValue(Decimal(n)) == Some(Number(n))
  {
    IntegerReadsBack(n);
    PlainScalar(Decimal(n));
    hide Decimal, IsInteger, IntegerValue, StripInlineComment, ParseTypedArray, ParseInlineTable, ParseTomlString, StripArrayInlineComment;
    assert "true"[0] == 't' && "false"[0] == 'f';
  }

  lemma FlagReadsBack(b: bool)
    ensures ParseRawValue(PrintBool(b)) == Some(Bool(b))
  {
    PrintedBoolIsPlain(b);
    PlainScalar(PrintBool(b));
    hide StripInlineComment, ParseTypedArray, ParseInlineTable, ParseTomlString, StripArrayInlineComment, IsInteger;
    assert "true"[0] != "false"[0];
  }

  /** An array is told by its bracket and read up to its end. */
  lemma ArrayIsDispatched(raw: string)
    requires raw != "" && raw[0] == '[' && StripArrayInlineComment(raw) == raw
    ensures ParseRawValue(raw) == Some(ParseTypedArray(raw))
  {
    hide ParseTypedArray, ParseInlineTable, ParseTomlString, StripInlineComment;
  }

  /** The value alone: its printed form parses to it. */
  lemma ValueReadsBack(v: Value)
    requires Printable(v)
    ensures ParseRawValue(PrintValue(v)) == Some(v)
  {
    hide ParseTypedArray, ParseInlineTable, ParseTomlString, Join, EscapeTomlString, StripArrayInlineComment, StripInlineComment, Decimal, PrintBool, IsInteger;
    match v
    case Text(s) =>
      BasicStringRoundTrip(s, "");
      assert Quoted(s) == [QUOTE] + EscapeTomlString(s) + [QUOTE] + "";
    case Number(n) => NumberReadsBack(n);
    case Bool(b) => FlagReadsBack(b);
    case Texts(items) =>
      TextsReadBack(items);
      ArrayIsDispatched(PrintValue(v));
    case Numbers(items) =>
      NumbersReadBack(items);
      ArrayIsDispatched(PrintValue(v));
    case Bools(items) =>
      FlagsReadBack(items);
      ArrayIsDispatched(PrintValue(v));
    case Table(entries) =>
      assert PrintValue(v)[0] == '{';
      TableReadsBack(entries);
    case Raw(raw) =>
  }

  lemma PlainScalar(s: string)
    requires '#' !in s
    ensures StripInlineComment(s) == s
  {
    IndexOfNone(s, '#');
  }

  /** A printed line falls apart into its key and its value. */
  lemma LineSplits(key: string, printed: string)
    requires GoodKey(key) && printed != "" && Trimmed(printed)
    ensures
      var t := Trim(key + " = " + printed);
      var eq := IndexOf(t, '=');
      && t != "" && t[0] != '#' && eq.Some? && eq.value < |t|
      && Trim(t[..eq.value]) == key && Trim(t[eq.value + 1..]) == printed
  {
    var line := key + " = " + printed;
    TrimOfTrimmed(printed);
    TrimOfTrimmed(key);
    if key == "" {
      EmptyKeyLine(printed);
    } else {
      TrimOfTrimmed(line);
      IndexOfFirst(key + " ", '=', " " + printed);
      assert line == (key + " ") + ['='] + (" " + printed);
      assert line[..|key| + 1] == key + " " && line[|key| + 2..] == " " + printed;
    }
  }

  lemma EmptyKeyLine(printed: string)
    requires printed != "" && Trimmed(printed)
    ensures
      var t := Trim("" + " = " + printed);
      && t != "" && t[0] == '=' && IndexOf(t, '=') == Some(0)
      && Trim(t[..0]) == "" && Trim(t[1..]) == printed
  {
    var t := "= " + printed;
    TrimOfTrimmed(t);
    TrimOfTrimmed(printed);
    assert "" + " = " + printed == " " + t;
    assert t[1..] == " " + printed;
  }

  /** Print then parse is the identity on a whole property line. */
  lemma PropertyReadsBack(key: string, v: Value)
    requires GoodKey(key) && Printable(v)
    ensures ParseProperty(FormatTomlProperty(key, v)) == Some((key, v))
  {
    PrintedValueIsTrimmed(v);
    ValueReadsBack(v);
    LineSplits(key, PrintValue(v));
    hide PrintValue, ParseRawValue, Printable, Trim, IndexOf;
  }

  /** A comment behind a printed number, flag, text or array is ignored. */
  lemma CommentsAreIgnored(v: Value, comment: string)
    requires Printable(v) && !v.Raw? && !v.Table?
    ensures ParseRawValue(PrintValue(v) + " #" + comment) == Some(v)
  {
    var printed, after := PrintValue(v), " #" + comment;
    assert printed + " #" + comment == printed + after;
    PrintedValueIsTrimmed(v);
    ValueReadsBack(v);
    hide ParseTypedArray, ParseInlineTable, Join, EscapeTomlString, StripArrayInlineComment, Decimal, PrintBool, IsInteger, IntegerValue, Printable, Trimmed;
    if v.Texts? || v.Numbers? || v.Bools? {
      PrintedArrayIsCut(v, after);
      PrintedArrayIsCut(v, "");
      assert printed + "" == printed && printed[0] == '[';
    } else if v.Text? {
      BasicStringRoundTrip(v.text, after);
      assert printed + after == [QUOTE] + EscapeTomlString(v.text) + [QUOTE] + after;
    } else {
      ScalarLosesComment(v, comment);
    }
  }

  lemma TrimEndOfTrimmed(s: string)
    requires Trimmed(s)
    ensures TrimEnd(s + " ") == s
  {
    assert (s + " ")[..|s|] == s;
  }

  lemma StripsComment(printed: string, comment: string)
    requires '#' !in printed && Trimmed(printed)
    ensures StripInlineComment(printed + " #" + comment) == printed && StripInlineComment(printed) == printed
  {
    IndexOfFirst(printed + " ", '#', comment);
    assert printed + " #" + comment == (printed + " ") + ['#'] + comment;
    assert (printed + " #" + comment)[..|printed| + 1] == printed + " ";
    TrimEndOfTrimmed(printed);
    PlainScalar(printed);
    hide Trimmed, TrimEnd;
  }

  lemma ScalarLosesComment(v: Value, comment: string)
    requires v.Number? || v.Bool?
    ensures ParseRawValue(PrintValue(v) + " #" + comment) == ParseRawValue(PrintValue(v))
  {
    var printed := PrintValue(v);
    PrintedScalarIsTrimmed(v);
    if v.Number? { IntegerReadsBack(v.number); } else { PrintedBoolIsPlain(v.flag); }
    hide Decimal, PrintBool, IsInteger, IntegerValue, ParseTypedArray, ParseInlineTable, ParseTomlString, StripArrayInlineComment, StripInlineComment, Trimmed;
    StripsComment(printed, comment);
    assert (printed + " #" + comment)[0] == printed[0];
  }

  /** A key of letters, digits, `_` and `-` reads back under every printable value. */
  lemma BareKeyReadsBack(key: string, v: Value)
    requires key != "" && (forall i :: 0 <= i < |key| ==> BareChar(key[i])) && Printable(v)
    ensures ParseProperty(FormatTomlProperty(key, v)) == Some((key, v))
  {
    assert GoodKey(key);
    PropertyReadsBack(key, v);
  }

  // ── Whatever was parsed can be printed ────────────────────────────────────────────────────────

  lemma {:induction false} PairsHaveUniqueKeys(content: string, from: nat, entries: seq<Entry>)
    requires from <= |content| && UniqueKeys(entries)
    ensures ParsePairs(content, from, entries).Some? ==> UniqueKeys(ParsePairs(content, from, entries).value)
    decreases |content| - from
  {
    hide SkipSeparators, SkipSpace, ReadText, Put, UniqueKeys;
    var pos := SkipSeparators(content, from);
    if pos < |content| {
      var key := ReadText(content, pos, '=');
      if key.Some? {
        var equals := SkipSpace(content, key.value.1);
        if equals < |content| && content[equals] == '=' {
          var value := ReadText(content, SkipSpace(content, equals + 1), ',');
          if value.Some? {
            PutKeepsUnique(entries, Entry(key.value.0, value.value.0));
            PairsHaveUniqueKeys(content, value.value.1, Put(entries, Entry(key.value.0, value.value.0)));
          }
        }
      }
    }
  }

  lemma {:induction false} ParsedSizes(parts: seq<string>)
    ensures ParseInts(parts).Some? ==> |ParseInts(parts).value| == |parts|
    ensures ParseBools(parts).Some? ==> |ParseBools(parts).value| == |parts|
  {
    if parts != [] { ParsedSizes(parts[1..]); }
  }

  /** What the array parser answers: items, or the text itself, which then is bracketed. */
  lemma ParsedArrayShape(raw: string)
    ensures
      var v := ParseTypedArray(raw);
      || v.Texts?
      || (v.Bools? && v.flags != [])
      || (v.Numbers? && v.numbers != [])
      || (v == Raw(raw) && |raw| >= 2 && raw[0] == '[' && raw[|raw| - 1] == ']')
  {
    hide ParseInts, ParseBools, Trim, Split, ParseStringArrayContent, StartsWith;
    if |raw| >= 2 {
      ParsedSizes(Split(Trim(raw[1..|raw| - 1]), ','));
    }
  }

  lemma ParsedArrayIsPrintable(raw: string)
    requires raw != "" && raw[0] == '['
    ensures
      var v := ParseTypedArray(StripArrayInlineComment(raw));
      v.Texts? || Printable(v)
  {
    var cut := StripArrayInlineComment(raw);
    StripIsIdempotent(raw);
    ParsedArrayShape(cut);
    hide ParseTypedArray, ParseInlineTable, ParseTomlString, StripInlineComment, StripArrayInlineComment;
  }

  lemma ParsedScalarIsPrintable(raw: string)
    requires Trimmed(raw) && raw != "" && raw[0] != '[' && raw[0] != QUOTE && raw[0] != '{'
    requires ParseRawValue(raw) == Some(Raw(StripInlineComment(raw)))
    ensures Printable(Raw(StripInlineComment(raw)))
  {
    hide ParseTypedArray, ParseInlineTable, ParseTomlString, StripArrayInlineComment;
    var scalar := StripInlineComment(raw);
    IndexOfNone(raw, '#');
    if IndexOf(raw, '#').Some? {
      var cut := raw[..IndexOf(raw, '#').value];
      TrimEndKeepsHead(cut);
      assert scalar == TrimEnd(cut);
    }
    PlainScalar(scalar);
  }

  /** Anything parsed from a line, except an array of strings, is printed in a form that parses to it again. */
  lemma ParsedIsPrintable(raw: string)
    requires Trimmed(raw) && ParseRawValue(raw).Some?
    ensures ParseRawValue(raw).value.Texts? || Printable(ParseRawValue(raw).value)
  {
    hide ParseTypedArray, ParseInlineTable, ParseTomlString, StripArrayInlineComment, StripInlineComment;
    var v := ParseRawValue(raw).value;
    if raw == "" {
      EmptyRaw();
    } else if raw[0] == '[' {
      ParsedArrayIsPrintable(raw);
    } else if raw[0] == '{' {
      TableIsUnique(raw);
    } else if raw[0] != QUOTE && v.Raw? {
      ParsedScalarIsPrintable(raw);
    }
  }

  lemma TableIsUnique(raw: string)
    ensures ParseInlineTable(raw).Some? ==> UniqueKeys(ParseInlineTable(raw).value)
  {
    hide ParsePairs;
    var trimmed := Trim(raw);
    var close := LastIndexOf(trimmed, '}');
    if close.Some? && trimmed != "" && 1 <= close.value <= |trimmed| {
      PairsHaveUniqueKeys(Trim(trimmed[1..close.value]), 0, []);
    }
  }

  lemma TrimTrims(s: string)
    ensures Trimmed(Trim(s))
  {
    TrimStartTrims(s);
    TrimEndKeepsHead(TrimStart(s));
  }

  lemma {:induction false} TrimEndIsPrefix(s: string, c: char)
    ensures c !in s ==> c !in TrimEnd(s)
  {
    if s != "" && IsSpace(s[|s| - 1]) { TrimEndIsPrefix(s[..|s| - 1], c); }
  }

  lemma {:induction false} TrimStartIsSuffix(s: string, c: char)
    ensures c !in s ==> c !in TrimStart(s)
  {
    if s != "" && IsSpace(s[0]) { TrimStartIsSuffix(s[1..], c); }
  }

  /** What a parsed line gives: a key that printing keeps, unless it starts like a header, and a printable value, unless an array of strings. */
  lemma ParsedPropertyIsPrintable(line: string)
    requires ParseProperty(line).Some?
    ensures
      var (key, v) := ParseProperty(line).value;
      && (key == "" || key[0] != '[' ==> GoodKey(key))
      && (v.Texts? || Printable(v))
  {
    var t := Trim(line);
    var eq := IndexOf(t, '=').value;
    IndexOfNone(t, '=');
    TrimTrims(line);
    TrimTrims(t[..eq]);
    TrimTrims(t[eq + 1..]);
    TrimStartIsSuffix(t[..eq], '=');
    TrimEndIsPrefix(TrimStart(t[..eq]), '=');
    ParsedIsPrintable(Trim(t[eq + 1..]));
    HeadOfTrimmedPrefix(t, eq);
  }

  lemma HeadOfTrimmedPrefix(t: string, n: nat)
    requires n <= |t| && t != "" && !IsSpace(t[0])
    ensures Trim(t[..n]) != "" ==> Trim(t[..n])[0] == t[0]
  {
    if n > 0 { TrimEndKeepsHead(t[..n]); }
  }
}
