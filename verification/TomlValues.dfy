/**
 * The value types of the TOML subset, how a property is printed on its line and how the line is parsed back
 * (sections Key/Value Pair, Integer, Boolean, Array and Inline Table of TOML v1.0.0).
 */
module TomlValues {
  import opened Basics
  import opened TomlStrings

  datatype Entry = Entry(key: string, value: string)

  /** `Raw` is kept and written back as it was found. */
  datatype Value =
    | Text(text: string)
    | Number(number: int)
    | Bool(flag: bool)
    | Texts(texts: seq<string>)
    | Numbers(numbers: seq<int>)
    | Bools(flags: seq<bool>)
    | Table(entries: seq<Entry>)
    | Raw(raw: string)

  // ── Printing ──────────────────────────────────────────────────────────────────────────────────

  function PrintBool(b: bool): string {
    if b then "true" else "false"
  }

  function PrintEntry(e: Entry): string {
    Quoted(e.key) + " = " + Quoted(e.value)
  }

  function PrintedNumbers(ns: seq<int>): seq<string> {
    seq(|ns|, i requires 0 <= i < |ns| => Decimal(ns[i]))
  }

  function PrintedBools(bs: seq<bool>): seq<string> {
    seq(|bs|, i requires 0 <= i < |bs| => PrintBool(bs[i]))
  }

  function PrintedEntries(es: seq<Entry>): seq<string> {
    seq(|es|, i requires 0 <= i < |es| => PrintEntry(es[i]))
  }

  function PrintValue(v: Value): string {
    match v
    case Raw(raw) => raw
    case Text(s) => Quoted(s)
    case Bool(b) => PrintBool(b)
    case Number(n) => Decimal(n)
    case Texts(items) => "[" + Join(QuotedItems(items), ",") + "]"
    case Numbers(items) => "[" + Join(PrintedNumbers(items), ",") + "]"
    case Bools(items) => "[" + Join(PrintedBools(items), ",") + "]"
    case Table(entries) => "{ " + Join(PrintedEntries(entries), ", ") + " }"
  }

  function FormatTomlProperty(key: string, v: Value): string {
    key + " = " + PrintValue(v)
  }

  // ── Integers ──────────────────────────────────────────────────────────────────────────────────

  predicate IsDigit(c: char) {
    '0' <= c <= '9'
  }

  predicate AllDigits(s: string) {
    s != "" && forall i :: 0 <= i < |s| ==> IsDigit(s[i])
  }

  predicate IsInteger(s: string) {
    AllDigits(s) || (s != "" && s[0] == '-' && AllDigits(s[1..]))
  }

  function DigitsValue(s: string): nat {
    if s == "" then 0
    else DigitsValue(s[..|s| - 1]) * 10 + if IsDigit(s[|s| - 1]) then s[|s| - 1] as int - '0' as int else 0
  }

  function IntegerValue(s: string): int {
    if s != "" && s[0] == '-' then 0 - DigitsValue(s[1..]) else DigitsValue(s)
  }

  lemma {:induction false} DigitsReadBack(n: nat)
    ensures AllDigits(Digits(n)) && DigitsValue(Digits(n)) == n
  {
    var d := Digits(n);
    if n >= 10 {
      DigitsReadBack(n / 10);
      assert d[..|d| - 1] == Digits(n / 10);
    } else {
      assert d[..0] == "";
    }
  }

  lemma IntegerReadsBack(n: int)
    ensures IsInteger(Decimal(n)) && IntegerValue(Decimal(n)) == n
    ensures Decimal(n) != "" && (IsDigit(Decimal(n)[0]) || Decimal(n)[0] == '-') && IsDigit(Decimal(n)[|Decimal(n)| - 1])
    ensures forall i :: 0 <= i < |Decimal(n)| ==> IsDigit(Decimal(n)[i]) || Decimal(n)[i] == '-'
  {
    if n < 0 {
      DigitsReadBack(-n);
      assert Decimal(n)[1..] == Digits(-n);
    } else {
      DigitsReadBack(n);
    }
  }

  // ── Arrays of integers and booleans ───────────────────────────────────────────────────────────

  function ParseInts(parts: seq<string>): Option<seq<int>> {
    if parts == [] then Some([])
    else
      var t := Trim(parts[0]);
      if !IsInteger(t) then None
      else match ParseInts(parts[1..]) case Some(rest) => Some([IntegerValue(t)] + rest) case None => None
  }

  function ParseBools(parts: seq<string>): Option<seq<bool>> {
    if parts == [] then Some([])
    else
      var t := ToLower(Trim(parts[0]));
      if t != "true" && t != "false" then None
      else match ParseBools(parts[1..]) case Some(rest) => Some([t == "true"] + rest) case None => None
  }

  method ParseIntArrayContent(content: string) returns (r: Option<seq<int>>)
    ensures r == ParseInts(Split(content, ','))
  {
    var parts, out: seq<int> := Split(content, ','), [];
    var i := 0;
    ghost var all := ParseInts(parts);
    assert parts[0..] == parts && (all.Some? ==> [] + all.value == all.value);
    while i < |parts|
      invariant 0 <= i <= |parts|
      invariant ParseInts(parts) == match ParseInts(parts[i..]) case Some(rest) => Some(out + rest) case None => None
    {
      var t := Trim(parts[i]);
      assert parts[i..][1..] == parts[i + 1..];
      if !IsInteger(t) { return None; }
      ghost var rest := ParseInts(parts[i + 1..]);
      assert rest.Some? ==> out + ([IntegerValue(t)] + rest.value) == (out + [IntegerValue(t)]) + rest.value;
      out := out + [IntegerValue(t)];
      i := i + 1;
    }
    assert parts[i..] == [] && out + [] == out;
    return Some(out);
  }

  lemma {:induction false} IntsReadBack(ns: seq<int>)
    ensures ParseInts(PrintedNumbers(ns)) == Some(ns)
  {
    hide Decimal, IsInteger, IntegerValue, Trim;
    if ns != [] {
      IntegerReadsBack(ns[0]);
      TrimOfTrimmed(Decimal(ns[0]));
      IntsReadBack(ns[1..]);
      assert PrintedNumbers(ns)[1..] == PrintedNumbers(ns[1..]);
      assert [ns[0]] + ns[1..] == ns;
    }
  }

  lemma PrintedBoolIsPlain(b: bool)
    ensures Trim(PrintBool(b)) == PrintBool(b) && ToLower(PrintBool(b)) == PrintBool(b)
    ensures PrintBool(b) != "" && forall i :: 0 <= i < |PrintBool(b)| ==> 'a' <= PrintBool(b)[i] <= 'z'
  {
    TrimOfTrimmed(PrintBool(b));
  }

  lemma {:induction false} BoolsReadBack(bs: seq<bool>)
    ensures ParseBools(PrintedBools(bs)) == Some(bs)
  {
    if bs != [] {
      PrintedBoolIsPlain(bs[0]);
      BoolsReadBack(bs[1..]);
      assert PrintedBools(bs)[1..] == PrintedBools(bs[1..]);
      assert [bs[0]] + bs[1..] == bs;
      assert "true"[0] != "false"[0];
    }
  }

  // ── Where an array ends ───────────────────────────────────────────────────────────────────────

  datatype Nest = Nest(depth: int, inQuote: bool, escaped: bool)

  /** One character towards the closing bracket of an array; quoted text does not count. */
  function Descend(n: Nest, ch: char): Nest {
    if n.escaped then n.(escaped := false)
    else if ch == BACKSLASH && n.inQuote then n.(escaped := true)
    else if ch == QUOTE then n.(inQuote := !n.inQuote)
    else if n.inQuote then n
    else if ch == '[' then n.(depth := n.depth + 1)
    else if ch == ']' then n.(depth := n.depth - 1)
    else n
  }

  predicate Closes(n: Nest, ch: char) {
    !n.escaped && !n.inQuote && ch == ']' && n.depth == 1
  }

  /** The length of the array that starts the text, or of the whole text when it never closes. */
  function ArrayEnd(value: string, i: nat, n: Nest): (end: nat)
    requires i <= |value|
    ensures i <= end <= |value|
    decreases |value| - i
  {
    if i == |value| then |value|
    else if Closes(n, value[i]) then i + 1
    else ArrayEnd(value, i + 1, Descend(n, value[i]))
  }

  const OUTSIDE := Nest(0, false, false)
  const INSIDE := Nest(1, false, false)

  function StripArrayInlineComment(value: string): string {
    value[..ArrayEnd(value, 0, OUTSIDE)]
  }

  method FindArrayEnd(value: string) returns (stripped: string)
    ensures stripped == StripArrayInlineComment(value)
  {
    var depth, inQuote, escaped, i := 0, false, false, 0;
    while i < |value|
      invariant 0 <= i <= |value|
      invariant ArrayEnd(value, i, Nest(depth, inQuote, escaped)) == ArrayEnd(value, 0, OUTSIDE)
    {
      var ch := value[i];
      i := i + 1;
      if escaped {
        escaped := false;
      } else if ch == BACKSLASH && inQuote {
        escaped := true;
      } else if ch == QUOTE {
        inQuote := !inQuote;
      } else if !inQuote {
        if ch == '[' {
          depth := depth + 1;
        } else if ch == ']' {
          depth := depth - 1;
          if depth == 0 { return value[..i]; }
        }
      }
    }
    return value;
  }

  /** The text neither closes the array nor changes where we are in it. */
  predicate Transparent(text: string, n: Nest) {
    Passes(text, n) == Some(n)
  }

  function Passes(text: string, n: Nest): Option<Nest> {
    if text == "" then Some(n)
    else if Closes(n, text[0]) then None
    else Passes(text[1..], Descend(n, text[0]))
  }

  lemma {:induction false} PassesAppend(a: string, b: string, n: Nest)
    ensures Passes(a + b, n) == match Passes(a, n) case Some(m) => Passes(b, m) case None => None
  {
    if a == "" {
      assert a + b == b;
    } else {
      assert (a + b)[1..] == a[1..] + b;
      if !Closes(n, a[0]) { PassesAppend(a[1..], b, Descend(n, a[0])); }
    }
  }

  lemma {:induction false} EndAfterPassing(before: string, text: string, after: string, n: Nest)
    requires Passes(text, n).Some?
    ensures ArrayEnd(before + text + after, |before|, n) == ArrayEnd(before + text + after, |before| + |text|, Passes(text, n).value)
    decreases |text|
  {
    if text != "" {
      var whole := before + text + after;
      assert whole[|before|] == text[0];
      assert whole == (before + [text[0]]) + text[1..] + after;
      EndAfterPassing(before + [text[0]], text[1..], after, Descend(n, text[0]));
    }
  }

  lemma {:induction false} EscapedPasses(s: string)
    ensures Transparent(EscapeTomlString(s), Nest(1, true, false))
    decreases |s|
  {
    EscapeByChar(s);
    if s != "" {
      EscapedPasses(s[1..]);
      var e := EscapedChar(s[0]);
      PassesAppend(e, EscapeTomlString(s[1..]), Nest(1, true, false));
      assert |e| == 2 ==> e[1..] == [e[1]] && [e[1]][1..] == "";
      assert |e| == 1 ==> e[1..] == "";
    }
  }

  lemma QuotedPasses(s: string)
    ensures Transparent(Quoted(s), INSIDE)
  {
    EscapedPasses(s);
    PassesAppend([QUOTE], EscapeTomlString(s), INSIDE);
    PassesAppend([QUOTE] + EscapeTomlString(s), [QUOTE], INSIDE);
    assert [QUOTE][1..] == "";
  }

  lemma {:induction false} PlainPasses(s: string)
    requires forall i :: 0 <= i < |s| ==> s[i] != QUOTE && s[i] != '[' && s[i] != ']' && s[i] != BACKSLASH
    ensures Transparent(s, INSIDE)
  {
    if s != "" { PlainPasses(s[1..]); }
  }

  lemma {:induction false} JoinPasses(parts: seq<string>)
    requires forall i :: 0 <= i < |parts| ==> Transparent(parts[i], INSIDE)
    ensures Transparent(Join(parts, ","), INSIDE)
  {
    if |parts| > 1 {
      JoinPasses(parts[1..]);
      PlainPasses(",");
      PassesAppend(parts[0], ",", INSIDE);
      PassesAppend(parts[0] + ",", Join(parts[1..], ","), INSIDE);
    } else if |parts| == 1 {
      assert Join(parts, ",") == parts[0];
    }
  }

  /** A printed array is its own array text: nothing is cut off, and what follows it on the line is. */
  lemma PrintedArrayEnds(content: string, after: string)
    requires Transparent(content, INSIDE)
    ensures StripArrayInlineComment("[" + content + "]" + after) == "[" + content + "]"
  {
    var value := "[" + content + "]" + after;
    assert value == "[" + content + ("]" + after);
    EndAfterPassing("[", content, "]" + after, INSIDE);
    assert value[0] == '[' && value[1 + |content|] == ']';
    assert value[..|content| + 2] == "[" + content + "]";
  }

  /** Cutting off a comment twice is cutting it off once. */
  lemma {:induction false} ArrayEndOfPrefix(value: string, i: nat, n: Nest)
    requires i <= |value|
    ensures var end := ArrayEnd(value, i, n); ArrayEnd(value[..end], i, n) == end
    decreases |value| - i
  {
    if i < |value| && !Closes(n, value[i]) {
      ArrayEndOfPrefix(value, i + 1, Descend(n, value[i]));
      assert ArrayEnd(value, i, n) > i ==> value[..ArrayEnd(value, i, n)][i] == value[i];
    }
  }

  lemma StripIsIdempotent(value: string)
    ensures StripArrayInlineComment(StripArrayInlineComment(value)) == StripArrayInlineComment(value)
  {
    ArrayEndOfPrefix(value, 0, OUTSIDE);
  }

  // ── Typed arrays ──────────────────────────────────────────────────────────────────────────────

  predicate StartsWith(s: string, prefix: string) {
    prefix <= s
  }

  function ParseTypedArray(raw: string): Value {
    if |raw| < 2 || raw[0] != '[' || raw[|raw| - 1] != ']' then Texts([])
    else
      var content := Trim(raw[1..|raw| - 1]);
      if content == "" then Texts([])
      else if content[0] == QUOTE then Texts(ParseStringArrayContent(content))
      else if StartsWith(content, "true") || StartsWith(content, "false") then
        match ParseBools(Split(content, ',')) case Some(bs) => Bools(bs) case None => Raw(raw)
      else if content[0] == '-' || IsDigit(content[0]) then
        match ParseInts(Split(content, ',')) case Some(ns) => Numbers(ns) case None => Raw(raw)
      else Texts(ParseStringArrayContent(content))
  }

  lemma {:induction false} JoinEnds(parts: seq<string>, separator: string)
    requires parts != [] && forall i :: 0 <= i < |parts| ==> parts[i] != ""
    ensures Join(parts, separator) != ""
    ensures Join(parts, separator)[0] == parts[0][0]
    ensures Join(parts, separator)[|Join(parts, separator)| - 1] == parts[|parts| - 1][|parts[|parts| - 1]| - 1]
    ensures parts[0] <= Join(parts, separator)
  {
    if |parts| > 1 {
      JoinEnds(parts[1..], separator);
      assert Join(parts, separator) == parts[0] + separator + Join(parts[1..], separator);
      assert parts[1..][|parts| - 2] == parts[|parts| - 1];
    } else {
      assert Join(parts, separator) == parts[0];
    }
  }

  lemma PrintedArrayContent(parts: seq<string>)
    requires parts != [] && forall i :: 0 <= i < |parts| ==> Transparent(parts[i], INSIDE) && parts[i] != "" && Trimmed(parts[i])
    ensures
      var content := Join(parts, ",");
      var raw := "[" + content + "]";
      && Trim(content) == content != "" && parts[0] <= content
      && StripArrayInlineComment(raw) == raw && raw[1..|raw| - 1] == content
  {
    var content := Join(parts, ",");
    JoinPasses(parts);
    PrintedArrayEnds(content, "");
    assert "[" + content + "]" + "" == "[" + content + "]";
    JoinEnds(parts, ",");
    TrimOfTrimmed(content);
  }

  /** An array of strings reads back exactly when no item holds a doubled or quoting backslash. */
  lemma TextsReadBack(items: seq<string>)
    ensures ParseTypedArray(PrintValue(Texts(items))) == Texts(items) <==> forall s :: s in items ==> NoPairs(s)
    ensures StripArrayInlineComment(PrintValue(Texts(items))) == PrintValue(Texts(items))
  {
    var parts := QuotedItems(items);
    if items != [] {
      forall i | 0 <= i < |parts| ensures Transparent(parts[i], INSIDE) { QuotedPasses(items[i]); }
      PrintedArrayContent(parts);
      StringArrayRoundTripExactly(items);
    } else {
      TrimOfTrimmed("");
      PrintedArrayEnds("", "");
      assert "[" + "" + "]" + "" == "[" + "" + "]";
    }
  }

  lemma NumbersAreDispatched(content: string, ns: seq<int>)
    requires Trim(content) == content != "" && (content[0] == '-' || IsDigit(content[0]))
    requires ParseInts(Split(content, ',')) == Some(ns)
    ensures ParseTypedArray("[" + content + "]") == Numbers(ns)
  {
    hide Trim, Split, ParseInts, ParseBools;
    var raw := "[" + content + "]";
    assert raw[1..|raw| - 1] == content;
    assert "true"[0] == 't' && "false"[0] == 'f';
  }

  lemma FlagsAreDispatched(content: string, bs: seq<bool>)
    requires Trim(content) == content != "" && (StartsWith(content, "true") || StartsWith(content, "false"))
    requires ParseBools(Split(content, ',')) == Some(bs)
    ensures ParseTypedArray("[" + content + "]") == Bools(bs)
  {
    hide Trim, Split, ParseInts, ParseBools;
    var raw := "[" + content + "]";
    assert raw[1..|raw| - 1] == content;
    assert "true"[0] == 't' && "false"[0] == 'f';
  }

  lemma PrintedNumberIsPlain(n: int)
    ensures Transparent(Decimal(n), INSIDE) && Decimal(n) != "" && Trimmed(Decimal(n)) && ',' !in Decimal(n)
    ensures Decimal(n)[0] == '-' || IsDigit(Decimal(n)[0])
  {
    IntegerReadsBack(n);
    PlainPasses(Decimal(n));
  }

  /** A non-empty array of integers reads back as itself. */
  lemma NumbersReadBack(items: seq<int>)
    requires items != []
    ensures ParseTypedArray(PrintValue(Numbers(items))) == Numbers(items)
    ensures StripArrayInlineComment(PrintValue(Numbers(items))) == PrintValue(Numbers(items))
  {
    hide ParseInts, Split, Join, ArrayEnd, Decimal, Trim, Passes, ParseTypedArray;
    var parts := PrintedNumbers(items);
    forall i | 0 <= i < |parts| ensures Transparent(parts[i], INSIDE) && parts[i] != "" && Trimmed(parts[i]) && ',' !in parts[i] {
      PrintedNumberIsPlain(items[i]);
    }
    PrintedNumberIsPlain(items[0]);
    PrintedArrayContent(parts);
    SplitOfJoin(parts, ',');
    IntsReadBack(items);
    NumbersAreDispatched(Join(parts, ","), items);
  }

  lemma PrintedFlagIsPlain(b: bool)
    ensures Transparent(PrintBool(b), INSIDE) && PrintBool(b) != "" && Trimmed(PrintBool(b)) && ',' !in PrintBool(b)
    ensures PrintBool(b) == "true" || PrintBool(b) == "false"
  {
    PrintedBoolIsPlain(b);
    hide Trim, ToLower;
    PlainPasses(PrintBool(b));
  }

  /** A non-empty array of booleans reads back as itself. */
  lemma FlagsReadBack(items: seq<bool>)
    requires items != []
    ensures ParseTypedArray(PrintValue(Bools(items))) == Bools(items)
    ensures StripArrayInlineComment(PrintValue(Bools(items))) == PrintValue(Bools(items))
  {
    hide ParseBools, Split, Join, ArrayEnd, PrintBool, Trim, Passes, ParseTypedArray, IsSpace;
    var parts := PrintedBools(items);
    forall i | 0 <= i < |parts| ensures Transparent(parts[i], INSIDE) && parts[i] != "" && Trimmed(parts[i]) && ',' !in parts[i] {
      PrintedFlagIsPlain(items[i]);
    }
    PrintedFlagIsPlain(items[0]);
    PrintedArrayContent(parts);
    SplitOfJoin(parts, ',');
    BoolsReadBack(items);
    FlagsAreDispatched(Join(parts, ","), items);
  }

  /** Whatever stands behind a printed array on its line, a comment for instance, is cut off and nothing else. */
  lemma PrintedArrayIsCut(v: Value, after: string)
    requires v.Texts? || v.Numbers? || v.Bools?
    ensures StripArrayInlineComment(PrintValue(v) + after) == PrintValue(v)
  {
    hide Join, Transparent, StripArrayInlineComment, EscapeTomlString, Decimal, PrintBool, Trimmed;
    var parts := if v.Texts? then QuotedItems(v.texts) else if v.Numbers? then PrintedNumbers(v.numbers) else PrintedBools(v.flags);
    forall i | 0 <= i < |parts| ensures Transparent(parts[i], INSIDE) {
      if v.Texts? { QuotedPasses(v.texts[i]); }
      if v.Numbers? { PrintedNumberIsPlain(v.numbers[i]); }
      if v.Bools? { PrintedFlagIsPlain(v.flags[i]); }
    }
    JoinPasses(parts);
    PrintedArrayEnds(Join(parts, ","), after);
    assert PrintValue(v) == "[" + Join(parts, ",") + "]";
  }
}
