/** The writer on whole texts: splitting and joining lose nothing, and configuring a file twice is configuring it once. */
module TomlText {
  import opened Basics
  import opened TomlStrings
  import opened TomlValues
  import opened TomlLines
  import opened TomlConfig
  import opened TomlMerge
  import opened TomlAiAgentConfig

  predicate OneLine(s: string) {
    '\n' !in s
  }

  /** A line that splitting the joined text gives back. */
  predicate CleanLine(line: string) {
    OneLine(line) && (line != "" ==> line[|line| - 1] != '\r')
  }

  predicate CleanLines(lines: seq<string>) {
    forall l :: l in lines ==> CleanLine(l)
  }

  lemma {:induction false} JoinedHasNoReturnPair(lines: seq<string>)
    requires CleanLines(lines)
    ensures NeverFollowed(Join(lines, "\n"), '\r', '\n')
  {
    if |lines| > 1 {
      var a, b := lines[0], Join(lines[1..], "\n");
      JoinedHasNoReturnPair(lines[1..]);
      var s := a + "\n" + b;
      assert CleanLine(a);
      forall i | 0 <= i < |s| - 1 && s[i] == '\r' ensures s[i + 1] != '\n' {
        if i + 1 < |a| {
          assert s[i + 1] == a[i + 1] && a[i + 1] in a;
        } else if i > |a| {
          assert s[i] == b[i - |a| - 1] && s[i + 1] == b[i - |a|];
        }
      }
    } else if |lines| == 1 {
      var a := lines[0];
      assert CleanLine(a);
      forall i | 0 <= i < |a| - 1 && a[i] == '\r' ensures a[i + 1] != '\n' { assert a[i + 1] in a; }
    }
  }

  /** Writing clean lines and reading them again gives the same lines. */
  lemma LinesSurvive(lines: seq<string>)
    requires lines != [] && CleanLines(lines)
    ensures SplitLines(Join(lines, "\n")) == lines
  {
    hide Join, Split, ReplacePair;
    JoinedHasNoReturnPair(lines);
    ReplacePairKeeps(Join(lines, "\n"), '\r', '\n', '\n');
    forall p | p in lines ensures '\n' !in p { assert CleanLine(p); }
    assert ['\n'] == "\n";
    SplitOfJoin(lines, '\n');
    ReplacePairFixed(Join(lines, "\n"));
  }

  lemma ReplacePairFixed(s: string)
    requires NeverFollowed(s, '\r', '\n')
    ensures ReplacePair(s, '\r', '\n', '\n') == s
  {
    ReplacePairKeeps(s, '\r', '\n', '\n');
  }

  lemma {:induction false} SplitPartsLack(s: string, c: char)
    ensures forall p :: p in Split(s, c) ==> c !in p
    decreases |s|
  {
    IndexOfNone(s, c);
    var i := IndexOf(s, c);
    if i.Some? { SplitPartsLack(s[i.value + 1..], c); }
  }

  /** No line of the text ends in a lone carriage return. */
  predicate NoStrayReturns(text: string) {
    forall l :: l in SplitLines(text) ==> l != "" ==> l[|l| - 1] != '\r'
  }

  lemma SplitLinesAreClean(text: string)
    requires NoStrayReturns(text)
    ensures CleanLines(SplitLines(text))
  {
    SplitPartsLack(ReplacePair(text, '\r', '\n', '\n'), '\n');
  }

  // ── Values that stay on one line ──────────────────────────────────────────────────────────────

  predicate OneLineValue(v: Value) {
    match v
    case Text(s) => OneLine(s)
    case Texts(items) => forall s :: s in items ==> OneLine(s)
    case Table(es) => forall e :: e in es ==> OneLine(e.key) && OneLine(e.value)
    case Raw(s) => OneLine(s)
    case _ => true
  }

  predicate OneLineAll(m: Properties) {
    forall k :: k in m ==> OneLine(k) && OneLineValue(m[k])
  }

  lemma {:induction false} ReplaceCharOneLine(s: string, c: char, with: string)
    requires OneLine(s) && OneLine(with)
    ensures OneLine(ReplaceChar(s, c, with))
  {
    if s != "" { ReplaceCharOneLine(s[1..], c, with); }
  }

  lemma EscapeOneLine(s: string)
    requires OneLine(s)
    ensures OneLine(EscapeTomlString(s)) && OneLine(Quoted(s))
  {
    ReplaceCharOneLine(s, BACKSLASH, "\\\\");
    ReplaceCharOneLine(ReplaceChar(s, BACKSLASH, "\\\\"), QUOTE, "\\\"");
  }

  lemma {:induction false} ReplacePairOneLine(s: string, a: char, b: char, with: char)
    requires OneLine(s) && with != '\n'
    ensures OneLine(ReplacePair(s, a, b, with))
  {
    if |s| >= 2 && s[0] == a && s[1] == b {
      ReplacePairOneLine(s[2..], a, b, with);
    } else if s != "" {
      ReplacePairOneLine(s[1..], a, b, with);
    }
  }

  lemma UnescapeOneLine(s: string)
    requires OneLine(s)
    ensures OneLine(Unescape(s))
  {
    ReplacePairOneLine(s, BACKSLASH, QUOTE, QUOTE);
    ReplacePairOneLine(ReplacePair(s, BACKSLASH, QUOTE, QUOTE), BACKSLASH, BACKSLASH, BACKSLASH);
  }

  lemma {:induction false} JoinOneLine(parts: seq<string>, separator: string)
    requires OneLine(separator) && forall p :: p in parts ==> OneLine(p)
    ensures OneLine(Join(parts, separator))
  {
    if parts != [] {
      assert parts[0] in parts && forall p :: p in parts[1..] ==> p in parts;
      JoinOneLine(parts[1..], separator);
    }
  }

  lemma DecimalOneLine(n: int)
    ensures OneLine(Decimal(n))
  {
    IntegerReadsBack(n);
  }

  /** A one-line value under a one-line key prints on one line. */
  lemma PrintsOnOneLine(key: string, v: Value)
    requires OneLine(key) && OneLineValue(v)
    ensures OneLine(FormatTomlProperty(key, v))
  {
    hide Join, EscapeTomlString, Decimal;
    match v
    case Text(s) => EscapeOneLine(s);
    case Number(n) => DecimalOneLine(n);
    case Texts(items) =>
      forall p | p in QuotedItems(items) ensures OneLine(p) {
        var i :| 0 <= i < |items| && p == Quoted(items[i]);
        EscapeOneLine(items[i]);
      }
      JoinOneLine(QuotedItems(items), ",");
    case Numbers(items) =>
      forall p | p in PrintedNumbers(items) ensures OneLine(p) {
        var i :| 0 <= i < |items| && p == Decimal(items[i]);
        DecimalOneLine(items[i]);
      }
      JoinOneLine(PrintedNumbers(items), ",");
    case Bools(items) => JoinOneLine(PrintedBools(items), ",");
    case Table(es) =>
      forall p | p in PrintedEntries(es) ensures OneLine(p) {
        var i :| 0 <= i < |es| && p == PrintEntry(es[i]);
        EscapeOneLine(es[i].key);
        EscapeOneLine(es[i].value);
      }
      JoinOneLine(PrintedEntries(es), ", ");
    case _ =>
  }

  predicate OneLineScan(st: Scan) {
    OneLine(st.current) && forall s :: s in st.items ==> OneLine(s)
  }

  lemma {:induction false} ScanOneLine(content: string)
    requires OneLine(content)
    ensures OneLineScan(ScanAll(START, content))
  {
    if content != "" {
      var n := |content| - 1;
      ScanOneLine(content[..n]);
      UnescapeOneLine(ScanAll(START, content[..n]).current);
      assert content[n] in content;
    }
  }

  lemma {:induction false} ReadOpenOneLine(content: string, pos: nat, read: string)
    requires OneLine(content) && OneLine(read)
    ensures ReadOpen(content, pos, read).Some? ==> OneLine(ReadOpen(content, pos, read).value.0)
    decreases |content| - pos
  {
    if pos < |content| {
      assert content[pos] in content;
      if content[pos] == BACKSLASH && pos + 1 < |content| {
        assert content[pos + 1] in content;
        ReadOpenOneLine(content, pos + 2, read + [content[pos + 1]]);
      } else if content[pos] != QUOTE {
        ReadOpenOneLine(content, pos + 1, read + [content[pos]]);
      }
    }
  }

  lemma TrimOneLine(s: string)
    requires OneLine(s)
    ensures OneLine(Trim(s))
  {
    TrimStartIsSuffix(s, '\n');
    TrimEndIsPrefix(TrimStart(s), '\n');
  }

  lemma ReadTextOneLine(content: string, pos: nat, stop: char)
    requires OneLine(content) && pos <= |content|
    ensures ReadText(content, pos, stop).Some? ==> OneLine(ReadText(content, pos, stop).value.0)
  {
    ReadOpenOneLine(content, pos + 1, "");
    TrimOneLine(content[pos..BareEnd(content, pos, stop)]);
  }

  predicate OneLineEntries(es: seq<Entry>) {
    forall e :: e in es ==> OneLine(e.key) && OneLine(e.value)
  }

  lemma {:induction false} PutOneLine(es: seq<Entry>, e: Entry)
    requires OneLineEntries(es) && OneLine(e.key) && OneLine(e.value)
    ensures OneLineEntries(Put(es, e))
  {
    if es != [] { PutOneLine(es[1..], e); }
  }

  lemma {:induction false} PairsOneLine(content: string, from: nat, es: seq<Entry>)
    requires OneLine(content) && from <= |content| && OneLineEntries(es)
    ensures ParsePairs(content, from, es).Some? ==> OneLineEntries(ParsePairs(content, from, es).value)
    decreases |content| - from
  {
    hide OneLine, Put, ReadText;
    var pos := SkipSeparators(content, from);
    if pos < |content| {
      var key := ReadText(content, pos, '=');
      ReadTextOneLine(content, pos, '=');
      if key.Some? {
        var equals := SkipSpace(content, key.value.1);
        if equals < |content| && content[equals] == '=' {
          var at := SkipSpace(content, equals + 1);
          var value := ReadText(content, at, ',');
          ReadTextOneLine(content, at, ',');
          if value.Some? {
            PutOneLine(es, Entry(key.value.0, value.value.0));
            PairsOneLine(content, value.value.1, Put(es, Entry(key.value.0, value.value.0)));
          }
        }
      }
    }
  }

  lemma TableOneLine(raw: string)
    requires OneLine(raw)
    ensures ParseInlineTable(raw).Some? ==> OneLineEntries(ParseInlineTable(raw).value)
  {
    hide ParsePairs;
    var trimmed := Trim(raw);
    TrimOneLine(raw);
    var close := LastIndexOf(trimmed, '}');
    if close.Some? && trimmed != "" && 1 <= close.value <= |trimmed| {
      TrimOneLine(trimmed[1..close.value]);
      PairsOneLine(Trim(trimmed[1..close.value]), 0, []);
    }
  }

  lemma ArrayOneLine(raw: string)
    requires OneLine(raw)
    ensures OneLineValue(ParseTypedArray(StripArrayInlineComment(raw)))
  {
    hide ParseInts, ParseBools, Split, ArrayEnd, Trim;
    var cut := StripArrayInlineComment(raw);
    assert OneLine(cut);
    if |cut| >= 2 {
      TrimOneLine(cut[1..|cut| - 1]);
      ScanOneLine(Trim(cut[1..|cut| - 1]));
    }
  }

  lemma StringOneLine(raw: string)
    requires OneLine(raw)
    ensures OneLine(ParseTomlString(raw))
  {
    hide Unescape;
    var i := ClosingQuote(raw, 1);
    if i.Some? && 1 <= i.value <= |raw| { UnescapeOneLine(raw[1..i.value]); }
  }

  lemma CommentOneLine(raw: string)
    requires OneLine(raw)
    ensures OneLine(StripInlineComment(raw))
  {
    var i := IndexOf(raw, '#');
    if i.Some? && i.value <= |raw| { TrimEndIsPrefix(raw[..i.value], '\n'); }
  }

  /** A property parsed from one line prints on one line again. */
  lemma ParsesOnOneLine(line: string)
    requires OneLine(line) && ParseProperty(line).Some?
    ensures OneLine(ParseProperty(line).value.0) && OneLineValue(ParseProperty(line).value.1)
  {
    hide ParseTypedArray, ParseInlineTable, ParseTomlString, StripArrayInlineComment, StripInlineComment, IsInteger, IntegerValue, Trim, IndexOf;
    var t := Trim(line);
    TrimOneLine(line);
    var eq := IndexOf(t, '=').value;
    var raw := Trim(t[eq + 1..]);
    TrimOneLine(t[..eq]);
    TrimOneLine(t[eq + 1..]);
    ArrayOneLine(raw);
    StringOneLine(raw);
    TableOneLine(raw);
    CommentOneLine(raw);
  }

  lemma {:induction false} SectionOneLine(lines: seq<string>)
    requires forall l :: l in lines ==> OneLine(l)
    ensures OneLineAll(ParseLines(lines))
  {
    hide ParseProperty, OneLineValue, OneLine;
    if lines != [] {
      var n := |lines| - 1;
      SectionOneLine(lines[..n]);
      assert lines[n] in lines;
      if ParseProperty(lines[n]).Some? { ParsesOnOneLine(lines[n]); }
    }
  }

  // ── Configured files are clean ────────────────────────────────────────────────────────────────

  /** The configuration names and values have no line breaks. */
  predicate OneLineConfig(cfg: Config) {
    && OneLine(cfg.bodyPath) && OneLine(cfg.serverName)
    && forall k :: k in cfg.properties ==> OneLine(k) && OneLineValue(cfg.properties[k].value)
  }

  predicate CleanFile(f: File) {
    CleanLines(f.preamble) && forall b :: b in f.blocks ==> CleanLines(BlockLines(b))
  }

  lemma {:induction false} CleanFileLines(bs: seq<Block>)
    ensures (forall b :: b in bs ==> CleanLines(BlockLines(b))) <==> CleanLines(FlattenBlocks(bs))
  {
    hide CleanLine, BlockLines;
    if bs != [] {
      CleanFileLines(bs[1..]);
      assert bs == [bs[0]] + bs[1..];
      assert CleanLines(FlattenBlocks(bs)) <==> CleanLines(BlockLines(bs[0])) && CleanLines(FlattenBlocks(bs[1..])) by {
        CleanAppend(BlockLines(bs[0]), FlattenBlocks(bs[1..]));
      }
    }
  }

  lemma CleanAppend(a: seq<string>, b: seq<string>)
    ensures CleanLines(a + b) <==> CleanLines(a) && CleanLines(b)
  {
    hide CleanLine;
    assert forall l :: l in a ==> l in a + b;
    assert forall l :: l in b ==> l in a + b;
  }

  lemma FinalIsOneLine(cfg: Config, f: File)
    requires OneLineConfig(cfg) && CleanFile(Cleaned(cfg, f))
    ensures OneLineAll(FinalProperties(cfg, f))
  {
    hide OneLineValue, OneLine, ParseLines, Cleaned;
    var c := Cleaned(cfg, f);
    match FindBlock(c.blocks, OwnTitle(cfg))
    case Some(i) =>
      var b := c.blocks[i];
      assert b in c.blocks && CleanLines(BlockLines(b));
      forall l | l in b.body ensures OneLine(l) { assert l in BlockLines(b) && CleanLine(l); }
      SectionOneLine(b.body);
    case None =>
  }

  lemma PrintedLineIsClean(key: string, v: Value)
    requires Printable(v) && OneLine(key) && OneLineValue(v)
    ensures CleanLine(FormatTomlProperty(key, v))
  {
    PrintsOnOneLine(key, v);
    PrintedValueIsTrimmed(v);
    assert IsSpace('\r');
    hide Printable, OneLineValue, PrintValue, OneLine, IsSpace;
  }

  lemma PrintedLinesAreClean(m: Properties)
    requires PrintableAll(m) && OneLineAll(m)
    ensures CleanLines(PropertyLines(m))
  {
    hide Printable, OneLineValue, GoodKey, OneLine, CleanLine, FormatTomlProperty;
    var ks := SortedKeys(m.Keys);
    forall l | l in PropertyLines(m) ensures CleanLine(l) {
      var i :| 0 <= i < |ks| && l == FormatTomlProperty(ks[i], m[ks[i]]);
      assert ks[i] in m;
      PrintedLineIsClean(ks[i], m[ks[i]]);
    }
  }

  lemma CleanedIsClean(cfg: Config, f: File)
    requires CleanFile(f)
    ensures CleanFile(Cleaned(cfg, f))
  {
    hide IsDuplicate, CleanLines;
    KeptOnesAreNotDuplicates(cfg, WithoutDeprecated(cfg, f.blocks, cfg.deprecated));
    DeprecatedSubset(cfg, f.blocks, cfg.deprecated);
  }

  lemma OwnBlockIsClean(cfg: Config, m: Properties)
    requires OneLineConfig(cfg) && PrintableAll(m) && OneLineAll(m)
    ensures CleanLines(BlockLines(OwnBlock(cfg, m)))
  {
    PrintedLinesAreClean(m);
    hide PropertyLines, Printable, OneLineValue;
    assert CleanLine(OwnTitle(cfg));
  }

  lemma {:induction false} JoinedEnd(lines: seq<string>)
    requires lines != [] && CleanLines(lines) && lines[|lines| - 1] != ""
    ensures
      var text := Join(lines, "\n");
      text != "" && text[|text| - 1] != '\n'
  {
    if |lines| == 1 {
      var l := lines[0];
      assert CleanLine(l) && l[|l| - 1] in l;
    } else {
      JoinedEnd(lines[1..]);
    }
  }

  /** A section of clean lines is spliced in as it is printed. */
  lemma SplicedAsPrinted(b: Block)
    requires CleanLines(BlockLines(b)) && BlockLines(b)[|b.body|] != ""
    ensures Spliced(b) == b
  {
    var lines := BlockLines(b);
    hide CleanLine, Join, SplitLines;
    JoinedEnd(lines);
    var text := Join(lines, "\n");
    assert SectionText(b)[..|text|] == text;
    assert WithoutFinalBreaks(text) == text;
    LinesSurvive(lines);
  }

  lemma OwnIsSplicedAsPrinted(cfg: Config, m: Properties)
    requires OneLineConfig(cfg) && PrintableAll(m) && OneLineAll(m)
    ensures Spliced(OwnBlock(cfg, m)) == OwnBlock(cfg, m)
  {
    OwnBlockIsClean(cfg, m);
    hide Printable, OneLineValue, CleanLine, PrintValue, Spliced;
    SplicedAsPrinted(OwnBlock(cfg, m));
  }

  /** One-line values: what is spliced in is what `Configured` says. */
  lemma MergedIsConfigured(cfg: Config, f: File)
    requires PrintableConfig(cfg) && OneLineConfig(cfg) && StableSection(cfg, f) && CleanFile(f)
    ensures MergedFile(cfg, f) == Configured(cfg, f)
  {
    var m := FinalProperties(cfg, f);
    CleanedIsClean(cfg, f);
    FinalIsOneLine(cfg, f);
    FinalIsPrintable(cfg, f);
    OwnIsSplicedAsPrinted(cfg, m);
    MergedFileIs(cfg, f);
    hide MergedFile, OwnBlock, Spliced, Cleaned, CleanFile, PrintableConfig, OneLineConfig, StableSection, Separated, Merged, Wanted, ParseLines;
  }

  /** Merging into a configured file changes nothing. */
  lemma MergedAgain(cfg: Config, f: File)
    requires PrintableConfig(cfg) && OneLineConfig(cfg) && StableSection(cfg, f) && UniqueDeprecated(cfg, f.blocks) && CleanFile(f)
    ensures MergedFile(cfg, Configured(cfg, f)) == Configured(cfg, f)
  {
    var g, m := Configured(cfg, f), FinalProperties(cfg, f);
    ConfiguredSection(cfg, f);
    ConfiguredStays(cfg, f);
    CleaningClean(cfg, g);
    ConfigureIsIdempotent(cfg, f);
    CleanedIsClean(cfg, f);
    FinalIsOneLine(cfg, f);
    FinalIsPrintable(cfg, f);
    OwnIsSplicedAsPrinted(cfg, m);
    hide Configured, Cleaned, FinalProperties, OwnBlock, Spliced, FindBlock, ParseLines, CleanFile, PrintableConfig, OneLineConfig, StableSection, AllStay;
    var i := FindBlock(g.blocks, OwnTitle(cfg)).value;
    assert OwnPlace(cfg, g) == i;
    assert g.blocks[i := g.blocks[i]] == g.blocks;
  }

  lemma ConfiguredIsClean(cfg: Config, f: File)
    requires PrintableConfig(cfg) && OneLineConfig(cfg) && StableSection(cfg, f) && CleanFile(f)
    ensures CleanLines(Flatten(Configured(cfg, f)))
  {
    var c, m := Cleaned(cfg, f), FinalProperties(cfg, f);
    CleanedIsClean(cfg, f);
    FinalIsOneLine(cfg, f);
    FinalIsPrintable(cfg, f);
    OwnBlockIsClean(cfg, m);
    hide CleanLines, PropertyLines, ParseLines, Cleaned, BlockLines, PrintableConfig, StableSection, OneLineConfig, Separated, Merged, Wanted, Flatten;
    match FindBlock(c.blocks, OwnTitle(cfg))
    case Some(i) => ReplacedIsClean(c, i, OwnBlock(cfg, m));
    case None => AppendedIsClean(c, OwnBlock(cfg, m));
  }

  lemma ReplacedIsClean(c: File, i: nat, own: Block)
    requires CleanFile(c) && i < |c.blocks| && CleanLines(BlockLines(own))
    ensures CleanLines(Flatten(c.(blocks := c.blocks[i := own])))
  {
    var g := c.(blocks := c.blocks[i := own]);
    hide CleanLine, BlockLines, FlattenBlocks;
    forall b | b in g.blocks ensures CleanLines(BlockLines(b)) { assert b == own || b in c.blocks; }
    CleanFileLines(g.blocks);
    CleanAppend(g.preamble, FlattenBlocks(g.blocks));
  }

  lemma AppendedIsClean(c: File, own: Block)
    requires CleanFile(c) && CleanLines(BlockLines(own))
    ensures CleanLines(Flatten(Separated(c).(blocks := Separated(c).blocks + [own])))
  {
    var s := Separated(c);
    hide CleanLines, BlockLines, FlattenBlocks;
    CleanFileLines(c.blocks);
    CleanAppend(c.preamble, FlattenBlocks(c.blocks));
    FlattenPlusLine(c, "");
    BlankIsClean();
    CleanAppend(Flatten(c), [""]);
    FlattenAppend(s.blocks, [own]);
    FlattenOne(own);
    CleanAppend(Flatten(s), BlockLines(own));
    assert Flatten(s.(blocks := s.blocks + [own])) == Flatten(s) + BlockLines(own);
  }

  lemma BlankIsClean()
    ensures CleanLines([""])
  {
  }

  lemma ConfiguredIsWellFormed(cfg: Config, f: File)
    requires WellFormed(f) && PrintableConfig(cfg) && StableSection(cfg, f)
    ensures WellFormed(Configured(cfg, f)) && Flatten(Configured(cfg, f)) != []
  {
    hide IsHeader, IsDuplicate, ParseLines, PropertyLines, PlusLine, PrintableConfig, StableSection;
    var c, m := Cleaned(cfg, f), FinalProperties(cfg, f);
    KeptOnesAreNotDuplicates(cfg, WithoutDeprecated(cfg, f.blocks, cfg.deprecated));
    DeprecatedSubset(cfg, f.blocks, cfg.deprecated);
    FinalIsPrintable(cfg, f);
    OwnIsWellFormed(cfg, m);
    var own, g := OwnBlock(cfg, m), Configured(cfg, f);
    match FindBlock(c.blocks, OwnTitle(cfg))
    case Some(i) =>
      forall b | b in g.blocks ensures BlockOk(b) { assert b == own || b in c.blocks; }
      CutAt(g, i);
    case None =>
      BlankIsNoHeader();
      FlattenPlusLine(c, "");
      CutAt(g, |g.blocks| - 1);
  }

  lemma BlankIsNoHeader()
    ensures !IsHeader("")
  {
  }

  /** No printed property line looks like a section header. */
  lemma OwnIsWellFormed(cfg: Config, m: Properties)
    requires PrintableAll(m)
    ensures BlockOk(OwnBlock(cfg, m))
  {
    hide Printable, PrintValue;
    OwnTitleIsTrimmed(cfg);
    var ks := SortedKeys(m.Keys);
    forall l | l in PropertyLines(m) ensures !IsHeader(l) {
      var i :| 0 <= i < |ks| && l == FormatTomlProperty(ks[i], m[ks[i]]);
      assert ks[i] in m;
      PrintedValueIsTrimmed(m[ks[i]]);
      PropertyIsNoHeader(ks[i], PrintValue(m[ks[i]]));
    }
  }

  lemma PropertyIsNoHeader(key: string, printed: string)
    requires GoodKey(key) && printed != "" && Trimmed(printed)
    ensures !IsHeader(key + " = " + printed)
  {
    if key == "" {
      EmptyKeyLine(printed);
    } else {
      TrimOfTrimmed(key + " = " + printed);
    }
  }

  // ── The writer on texts ───────────────────────────────────────────────────────────────────────

  /** What the theorems on texts assume of the file: no lone carriage returns, stable lines in our section, no deprecated section twice. */
  predicate GoodText(cfg: Config, text: string) {
    && NoStrayReturns(text)
    && StableSection(cfg, ReadFile(SplitLines(text)))
    && UniqueDeprecated(cfg, ReadFile(SplitLines(text)).blocks)
  }

  lemma FileIsClean(text: string)
    requires NoStrayReturns(text)
    ensures CleanFile(ReadFile(SplitLines(text)))
  {
    var lines := SplitLines(text);
    var f := ReadFile(lines);
    SplitLinesAreClean(text);
    FlattenOfRead(lines);
    hide CleanLine, SplitLines, IsHeader, ReadFile, BlockLines;
    CleanAppend(f.preamble, FlattenBlocks(f.blocks));
    CleanFileLines(f.blocks);
  }

  /** Reading the written text again gives the sections that were written. */
  lemma WrittenReadsBack(cfg: Config, text: string)
    requires PrintableConfig(cfg) && OneLineConfig(cfg) && GoodText(cfg, text)
    ensures
      var f := ReadFile(SplitLines(text));
      && SplitLines(ConfiguredText(cfg, Some(text))) == Flatten(Configured(cfg, f))
      && ReadFile(SplitLines(ConfiguredText(cfg, Some(text)))) == Configured(cfg, f)
  {
    var f := ReadFile(SplitLines(text));
    FileIsClean(text);
    FlattenOfRead(SplitLines(text));
    hide CleanFile, PrintableConfig, OneLineConfig, StableSection, UniqueDeprecated, Configured, MergedFile, SplitLines, ReadFile, Flatten, WellFormed, Join;
    MergedIsConfigured(cfg, f);
    ConfiguredIsClean(cfg, f);
    ConfiguredIsWellFormed(cfg, f);
    LinesSurvive(Flatten(Configured(cfg, f)));
    ReadOfFlatten(Configured(cfg, f));
  }

  /** Configuring an existing file a second time leaves its text as it is. */
  lemma ConfiguringTextTwice(cfg: Config, text: string)
    requires PrintableConfig(cfg) && OneLineConfig(cfg) && GoodText(cfg, text)
    ensures ConfiguredText(cfg, Some(ConfiguredText(cfg, Some(text)))) == ConfiguredText(cfg, Some(text))
  {
    hide Configured, MergedFile, SplitLines, ReadFile, Flatten, Join, StableSection, UniqueDeprecated, CleanFile, CleanLines, PrintableConfig, OneLineConfig;
    WrittenReadsBack(cfg, text);
    FileIsClean(text);
    MergedIsConfigured(cfg, ReadFile(SplitLines(text)));
    MergedAgain(cfg, ReadFile(SplitLines(text)));
  }

  /** On a text, too, the writer reports success exactly when every required value can be matched and no key is both set and removed. */
  lemma ConfiguringTextSucceedsExactly(cfg: Config, text: string)
    requires PrintableConfig(cfg) && OneLineConfig(cfg) && GoodText(cfg, text)
    ensures IsConfigured(cfg, ReadFile(SplitLines(ConfiguredText(cfg, Some(text))))) <==>
              && (forall k :: k in cfg.properties && cfg.properties[k].required ==> Matchable(cfg.properties[k].value))
              && cfg.properties.Keys !! cfg.toRemove
  {
    WrittenReadsBack(cfg, text);
    hide Configured, MergedFile, SplitLines, ReadFile, Flatten, Join;
    ConfigureSucceedsExactly(cfg, ReadFile(SplitLines(text)));
  }

  // ── New files ─────────────────────────────────────────────────────────────────────────────────

  lemma {:induction false} JoinEndingBlank(lines: seq<string>)
    requires lines != []
    ensures Join(lines + [""], "\n") == Join(lines, "\n") + "\n"
  {
    if |lines| > 1 {
      JoinEndingBlank(lines[1..]);
      assert (lines + [""])[1..] == lines[1..] + [""];
    } else {
      assert (lines + [""])[1..] == [""];
      assert Join([""], "\n") == "";
    }
  }

  /** A new file is our section and the blank end its final line break makes. */
  lemma NewFileReads(cfg: Config)
    requires PrintableConfig(cfg) && OneLineConfig(cfg)
    ensures
      var own := OwnBlock(cfg, Wanted(cfg));
      ReadFile(SplitLines(ExpectedFileContent(cfg))) == File([], [Block(own.header, own.body + [""])])
  {
    var own := OwnBlock(cfg, Wanted(cfg));
    var f := File([], [Block(own.header, own.body + [""])]);
    WantedPrints(cfg);
    hide PrintableAll, OneLineAll;
    OwnBlockIsClean(cfg, Wanted(cfg));
    OwnIsWellFormed(cfg, Wanted(cfg));
    BlankIsNoHeader();
    BlankIsClean();
    hide PropertyLines, CleanLine, Join, SplitLines, IsHeader, ReadFile, PrintableConfig, OneLineConfig;
    JoinEndingBlank(BlockLines(own));
    CleanAppend(BlockLines(own), [""]);
    LinesSurvive(BlockLines(own) + [""]);
    FlattenOne(f.blocks[0]);
    assert Flatten(f) == BlockLines(own) + [""];
    ReadOfFlatten(f);
  }

  /**
   * Creating the file and configuring again is not the identity on its text: the second run writes the same
   * lines without the final line break. From then on nothing changes.
   */
  lemma SecondRunDropsTheFinalBreak(cfg: Config)
    requires PrintableConfig(cfg) && OneLineConfig(cfg)
    requires forall name :: name in cfg.deprecated ==> Title(cfg, name) != OwnTitle(cfg)
    ensures ConfiguredText(cfg, Some(ConfiguredText(cfg, None))) + "\n" == ConfiguredText(cfg, None)
  {
    var own := OwnBlock(cfg, Wanted(cfg));
    NewFileReads(cfg);
    MergedIntoNewFile(cfg);
    hide PropertyLines, Join, SplitLines, ReadFile, PrintableConfig, OneLineConfig, MergedFile;
    FlattenOne(own);
    assert [] + BlockLines(own) == BlockLines(own);
  }

  /** Merging into the file `configure` has just created drops the blank end of our section. */
  lemma MergedIntoNewFile(cfg: Config)
    requires PrintableConfig(cfg) && OneLineConfig(cfg)
    requires forall name :: name in cfg.deprecated ==> Title(cfg, name) != OwnTitle(cfg)
    ensures
      var own := OwnBlock(cfg, Wanted(cfg));
      MergedFile(cfg, File([], [Block(own.header, own.body + [""])])) == File([], [own])
  {
    var own := OwnBlock(cfg, Wanted(cfg));
    var longer := Block(own.header, own.body + [""]);
    var f := File([], [longer]);
    WantedPrints(cfg);
    hide PrintableAll, OneLineAll;
    NewSectionStays(cfg, Wanted(cfg));
    SectionReadsBack(Wanted(cfg));
    WantedIsMerged(cfg);
    OwnIsSplicedAsPrinted(cfg, Wanted(cfg));
    BlankLineKeepsBystander(cfg, own);
    MergedFileIs(cfg, f);
    hide PropertyLines, ParseLines, PrintableConfig, OneLineConfig, MergedFile, Spliced, Merged, Separated, FindBlock, Cleaned, Wanted, IsDuplicate, Bystander;
    assert f.blocks[0 := own] == [own];
  }

  lemma WantedPrints(cfg: Config)
    requires PrintableConfig(cfg) && OneLineConfig(cfg)
    ensures PrintableAll(Wanted(cfg)) && OneLineAll(Wanted(cfg))
  {
    hide Printable, GoodKey, OneLine, OneLineValue;
  }

  lemma NewSectionStays(cfg: Config, m: Properties)
    requires forall name :: name in cfg.deprecated ==> Title(cfg, name) != OwnTitle(cfg)
    ensures
      var own := OwnBlock(cfg, m);
      var f := File([], [Block(own.header, own.body + [""])]);
      Cleaned(cfg, f) == f && FindBlock(f.blocks, OwnTitle(cfg)) == Some(0)
  {
    var own := OwnBlock(cfg, m);
    var longer := Block(own.header, own.body + [""]);
    var f := File([], [longer]);
    OwnStays(cfg, m);
    BlankLineKeepsBystander(cfg, own);
    hide IsDuplicate, Titled, Stays, PropertyLines, Cleaned, FindBlock;
    assert Stays(cfg, longer) && Titled(longer, OwnTitle(cfg)) by { SameHeader(cfg, own, longer); }
    CleaningClean(cfg, f);
    FirstIs(f.blocks, OwnTitle(cfg), 0);
  }

  lemma SameHeader(cfg: Config, a: Block, b: Block)
    requires a.header == b.header && (IsDuplicate(cfg, a) <==> IsDuplicate(cfg, b))
    ensures (Stays(cfg, a) <==> Stays(cfg, b)) && forall title :: Titled(a, title) <==> Titled(b, title)
  {
    hide IsDuplicate;
    forall title ensures Titled(a, title) <==> Titled(b, title) { }
  }
}
