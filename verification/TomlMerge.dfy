/** Configuring twice is configuring once, and success is reported exactly when it was reached. */
module TomlMerge {
  import opened Basics
  import opened TomlStrings
  import opened TomlValues
  import opened TomlLines
  import opened TomlConfig

  /** What the caller configures can be printed so that it reads back. */
  predicate PrintableConfig(cfg: Config) {
    forall k :: k in cfg.properties ==> GoodKey(k) && Printable(cfg.properties[k].value)
  }

  /** A line whose reprint reads back: its key does not start like a header, and an array of strings holds no such pair as an extra unescaping would change. */
  predicate StableLine(line: string) {
    ParseProperty(line).Some? ==>
      var (key, v) := ParseProperty(line).value;
      (key == "" || key[0] != '[') && (v.Texts? ==> forall s :: s in v.texts ==> NoPairs(s))
  }

  predicate StableLines(lines: seq<string>) {
    forall l :: l in lines ==> StableLine(l)
  }

  lemma {:induction false} StableLinesArePrintable(lines: seq<string>)
    requires StableLines(lines)
    ensures PrintableAll(ParseLines(lines))
  {
    hide ParseProperty, Printable, GoodKey;
    if lines != [] {
      var n := |lines| - 1;
      StableLinesArePrintable(lines[..n]);
      assert StableLine(lines[n]);
      if ParseProperty(lines[n]).Some? {
        ParsedPropertyIsPrintable(lines[n]);
        if ParseProperty(lines[n]).value.1.Texts? { TextsArePrintable(ParseProperty(lines[n]).value.1); }
      }
    }
  }

  lemma TextsArePrintable(v: Value)
    requires v.Texts? && forall s :: s in v.texts ==> NoPairs(s)
    ensures Printable(v)
  {
  }

  lemma MergedIsPrintable(cfg: Config, existing: Properties)
    requires PrintableConfig(cfg) && PrintableAll(existing)
    ensures PrintableAll(Merged(cfg, existing))
  {
    hide Printable, GoodKey;
    forall k | k in Merged(cfg, existing) ensures GoodKey(k) && Printable(Merged(cfg, existing)[k]) {
      if k !in cfg.properties { assert k in existing; }
    }
  }

  lemma MergingTwice(cfg: Config, existing: Properties)
    ensures Merged(cfg, Merged(cfg, existing)) == Merged(cfg, existing)
  {
  }

  lemma WantedIsMerged(cfg: Config)
    ensures Merged(cfg, Wanted(cfg)) == Wanted(cfg)
  {
  }

  // ── A cleaned file stays clean ────────────────────────────────────────────────────────────────

  /** No deprecated section occurs twice, and our own name is not deprecated. */
  predicate UniqueDeprecated(cfg: Config, bs: seq<Block>) {
    && (forall name :: name in cfg.deprecated ==> Title(cfg, name) != OwnTitle(cfg))
    && forall name :: name in cfg.deprecated ==> AtMostOne(bs, Title(cfg, name))
  }

  predicate AtMostOne(bs: seq<Block>, title: string) {
    forall i, j :: 0 <= i < j < |bs| && Titled(bs[i], title) ==> !Titled(bs[j], title)
  }

  predicate NoneTitled(bs: seq<Block>, title: string) {
    forall b :: b in bs ==> !Titled(b, title)
  }

  lemma {:induction false} FirstWasOnly(bs: seq<Block>, title: string)
    requires AtMostOne(bs, title)
    ensures NoneTitled(WithoutFirst(bs, title), title)
  {
    if bs != [] {
      if Titled(bs[0], title) {
        forall b | b in bs[1..] ensures !Titled(b, title) { var j :| 0 <= j < |bs[1..]| && bs[1..][j] == b; assert bs[j + 1] == b; }
      } else {
        FirstWasOnly(bs[1..], title);
      }
    }
  }

  lemma {:induction false} FirstOf(bs: seq<Block>, title: string, other: string)
    requires AtMostOne(bs, other)
    ensures AtMostOne(WithoutFirst(bs, title), other)
    ensures forall b :: b in WithoutFirst(bs, title) ==> b in bs
  {
    if bs != [] && !Titled(bs[0], title) {
      FirstOf(bs[1..], title, other);
      var rest := WithoutFirst(bs[1..], title);
      forall j | 0 <= j < |rest| && Titled(bs[0], other) ensures !Titled(rest[j], other) {
        assert rest[j] in bs[1..];
        var k :| 0 <= k < |bs[1..]| && bs[1..][k] == rest[j];
        assert bs[k + 1] == rest[j];
      }
      assert forall i :: 1 <= i <= |rest| ==> ([bs[0]] + rest)[i] == rest[i - 1];
    }
  }

  lemma {:induction false} NoDeprecatedLeft(cfg: Config, bs: seq<Block>, names: seq<string>, name: string)
    requires forall n :: n in cfg.deprecated ==> AtMostOne(bs, Title(cfg, n))
    requires forall n :: n in names ==> n in cfg.deprecated
    requires name in cfg.deprecated && (name in names || NoneTitled(bs, Title(cfg, name)))
    ensures NoneTitled(WithoutDeprecated(cfg, bs, names), Title(cfg, name))
    decreases |names|
  {
    hide Titled, Title, AtMostOne, WithoutFirst;
    if names != [] {
      var rest := WithoutFirst(bs, Title(cfg, names[0]));
      assert names[0] in names && forall n :: n in names[1..] ==> n in names;
      forall n | n in cfg.deprecated
        ensures AtMostOne(rest, Title(cfg, n)) && forall b :: b in rest ==> b in bs
      {
        FirstOf(bs, Title(cfg, names[0]), Title(cfg, n));
      }
      FirstOf(bs, Title(cfg, names[0]), Title(cfg, name));
      FirstWasOnly(bs, Title(cfg, names[0]));
      assert names == [names[0]] + names[1..];
      NoDeprecatedLeft(cfg, rest, names[1..], name);
    }
  }

  /** A section that cleaning leaves in place. */
  predicate Stays(cfg: Config, b: Block) {
    !IsDeprecated(cfg, b) && !IsDuplicate(cfg, b)
  }

  predicate AllStay(cfg: Config, bs: seq<Block>) {
    forall b :: b in bs ==> Stays(cfg, b)
  }

  lemma {:induction false} NothingToDrop(bs: seq<Block>, title: string)
    requires NoneTitled(bs, title)
    ensures WithoutFirst(bs, title) == bs
  {
    if bs != [] {
      assert bs[0] in bs;
      NothingToDrop(bs[1..], title);
    }
  }

  lemma {:induction false} CleanStaysClean(cfg: Config, bs: seq<Block>, names: seq<string>)
    requires AllStay(cfg, bs) && forall n :: n in names ==> n in cfg.deprecated
    ensures WithoutDeprecated(cfg, bs, names) == bs
    decreases |names|
  {
    hide IsDuplicate, Titled, Title;
    if names != [] {
      forall b | b in bs ensures !Titled(b, Title(cfg, names[0])) { assert Stays(cfg, b) && names[0] in names; }
      NothingToDrop(bs, Title(cfg, names[0]));
      CleanStaysClean(cfg, bs, names[1..]);
    }
  }

  lemma {:induction false} NoDuplicatesToDrop(cfg: Config, bs: seq<Block>)
    requires AllStay(cfg, bs)
    ensures WithoutDuplicates(cfg, bs) == bs
  {
    hide IsDuplicate;
    if bs != [] {
      assert Stays(cfg, bs[0]);
      NoDuplicatesToDrop(cfg, bs[1..]);
    }
  }

  lemma {:induction false} KeptOnesAreNotDuplicates(cfg: Config, bs: seq<Block>)
    ensures forall b :: b in WithoutDuplicates(cfg, bs) ==> b in bs && !IsDuplicate(cfg, b)
  {
    hide IsDuplicate;
    if bs != [] { KeptOnesAreNotDuplicates(cfg, bs[1..]); }
  }

  lemma CleanedAllStay(cfg: Config, f: File)
    requires UniqueDeprecated(cfg, f.blocks)
    ensures AllStay(cfg, Cleaned(cfg, f).blocks)
  {
    hide IsDuplicate, Titled, Title;
    var bs := WithoutDeprecated(cfg, f.blocks, cfg.deprecated);
    KeptOnesAreNotDuplicates(cfg, bs);
    forall b | b in Cleaned(cfg, f).blocks ensures Stays(cfg, b) {
      assert b in bs;
      forall name | name in cfg.deprecated ensures !Titled(b, Title(cfg, name)) {
        NoDeprecatedLeft(cfg, f.blocks, cfg.deprecated, name);
      }
    }
  }

  lemma CleaningClean(cfg: Config, f: File)
    requires AllStay(cfg, f.blocks)
    ensures Cleaned(cfg, f) == f
  {
    hide IsDuplicate;
    CleanStaysClean(cfg, f.blocks, cfg.deprecated);
    NoDuplicatesToDrop(cfg, f.blocks);
  }

  lemma OwnStays(cfg: Config, m: Properties)
    requires forall name :: name in cfg.deprecated ==> Title(cfg, name) != OwnTitle(cfg)
    ensures Stays(cfg, OwnBlock(cfg, m)) && Titled(OwnBlock(cfg, m), OwnTitle(cfg))
  {
    OwnTitleIsTrimmed(cfg);
  }

  // ── Idempotence ───────────────────────────────────────────────────────────────────────────────

  /** The properties our section is left with. */
  function FinalProperties(cfg: Config, f: File): Properties {
    var c := Cleaned(cfg, f);
    match FindBlock(c.blocks, OwnTitle(cfg))
    case Some(i) => Merged(cfg, ParseLines(c.blocks[i].body))
    case None => Wanted(cfg)
  }

  /** Our section, if the file has one, consists of lines whose reprint reads back. */
  predicate StableSection(cfg: Config, f: File) {
    var c := Cleaned(cfg, f);
    match FindBlock(c.blocks, OwnTitle(cfg))
    case Some(i) => StableLines(c.blocks[i].body)
    case None => true
  }

  lemma FinalIsPrintable(cfg: Config, f: File)
    requires PrintableConfig(cfg) && StableSection(cfg, f)
    ensures PrintableAll(FinalProperties(cfg, f))
    ensures Merged(cfg, FinalProperties(cfg, f)) == FinalProperties(cfg, f)
  {
    hide Printable, GoodKey, ParseLines, IsDuplicate, StableLine;
    var c := Cleaned(cfg, f);
    match FindBlock(c.blocks, OwnTitle(cfg))
    case Some(i) =>
      StableLinesArePrintable(c.blocks[i].body);
      MergedIsPrintable(cfg, ParseLines(c.blocks[i].body));
      MergingTwice(cfg, ParseLines(c.blocks[i].body));
    case None => WantedIsMerged(cfg);
  }

  /** Where our section is after configuring, and what it reads as. */
  lemma ConfiguredSection(cfg: Config, f: File)
    requires PrintableConfig(cfg) && StableSection(cfg, f) && forall name :: name in cfg.deprecated ==> Title(cfg, name) != OwnTitle(cfg)
    ensures
      var g, i := Configured(cfg, f), FindBlock(Configured(cfg, f).blocks, OwnTitle(cfg));
      && i.Some? && g.blocks[i.value] == OwnBlock(cfg, FinalProperties(cfg, f))
      && ParseLines(g.blocks[i.value].body) == FinalProperties(cfg, f)
  {
    hide Printable, GoodKey, ParseLines, IsDuplicate, StableLines, PropertyLines, Titled, PlusLine;
    var c, m := Cleaned(cfg, f), FinalProperties(cfg, f);
    FinalIsPrintable(cfg, f);
    SectionReadsBack(m);
    OwnStays(cfg, m);
    match FindBlock(c.blocks, OwnTitle(cfg))
    case Some(i) => FoundAgain(c.blocks, i, OwnBlock(cfg, m), OwnTitle(cfg));
    case None =>
      SeparatedTitles(c, OwnTitle(cfg));
      FoundAtEnd(Separated(c).blocks, OwnBlock(cfg, m), OwnTitle(cfg));
  }

  lemma {:induction false} FirstIs(bs: seq<Block>, title: string, i: nat)
    requires i < |bs| && Titled(bs[i], title) && forall k :: 0 <= k < i ==> !Titled(bs[k], title)
    ensures FindBlock(bs, title) == Some(i)
  {
    hide Titled;
    if i > 0 { FirstIs(bs[1..], title, i - 1); }
  }

  lemma FoundAgain(bs: seq<Block>, i: nat, b: Block, title: string)
    requires FindBlock(bs, title) == Some(i) && Titled(b, title)
    ensures FindBlock(bs[i := b], title) == Some(i)
  {
    FirstIs(bs[i := b], title, i);
  }

  lemma FoundAtEnd(bs: seq<Block>, b: Block, title: string)
    requires FindBlock(bs, title).None? && Titled(b, title)
    ensures FindBlock(bs + [b], title) == Some(|bs|)
  {
    FirstIs(bs + [b], title, |bs|);
  }

  lemma SeparatedTitles(f: File, title: string)
    requires FindBlock(f.blocks, title).None?
    ensures FindBlock(Separated(f).blocks, title).None?
  {
    var bs := Separated(f).blocks;
    assert |bs| == |f.blocks| && forall k :: 0 <= k < |bs| ==> bs[k].header == f.blocks[k].header;
    forall k | 0 <= k < |bs| ensures !Titled(bs[k], title) { assert !Titled(f.blocks[k], title); }
  }

  lemma BlankLineStays(cfg: Config, b: Block)
    ensures Stays(cfg, Block(b.header, b.body + [""])) <==> Stays(cfg, b)
  {
    BlankLineKeepsBystander(cfg, b);
    hide IsDuplicate;
    var longer := Block(b.header, b.body + [""]);
    assert forall title :: Titled(longer, title) <==> Titled(b, title);
  }

  lemma PlusLineBlocks(f: File, line: string, b: Block)
    requires b in PlusLine(f, line).blocks
    ensures f.blocks != [] && (b in f.blocks || b == Block(f.blocks[|f.blocks| - 1].header, f.blocks[|f.blocks| - 1].body + [line]))
  {
  }

  lemma SeparatedStay(cfg: Config, f: File)
    requires AllStay(cfg, f.blocks)
    ensures AllStay(cfg, Separated(f).blocks)
  {
    hide PlusLine, IsDuplicate, IsDeprecated;
    forall b | b in Separated(f).blocks ensures Stays(cfg, b) {
      if b !in f.blocks {
        PlusLineBlocks(f, "", b);
        var last := f.blocks[|f.blocks| - 1];
        assert last in f.blocks && Stays(cfg, last);
        BlankLineStays(cfg, last);
      }
    }
  }

  lemma ConfiguredStays(cfg: Config, f: File)
    requires UniqueDeprecated(cfg, f.blocks)
    ensures AllStay(cfg, Configured(cfg, f).blocks)
  {
    hide IsDuplicate, ParseLines, PropertyLines, PlusLine;
    var c := Cleaned(cfg, f);
    CleanedAllStay(cfg, f);
    OwnStays(cfg, FinalProperties(cfg, f));
    match FindBlock(c.blocks, OwnTitle(cfg))
    case Some(i) =>
      forall b | b in Configured(cfg, f).blocks ensures Stays(cfg, b) { assert b == OwnBlock(cfg, FinalProperties(cfg, f)) || b in c.blocks; }
    case None => SeparatedStay(cfg, c);
  }

  /** Configuring a configured file changes nothing. */
  lemma ConfigureIsIdempotent(cfg: Config, f: File)
    requires PrintableConfig(cfg) && StableSection(cfg, f) && UniqueDeprecated(cfg, f.blocks)
    ensures Configured(cfg, Configured(cfg, f)) == Configured(cfg, f)
  {
    var g := Configured(cfg, f);
    ConfiguredSection(cfg, f);
    ConfiguredStays(cfg, f);
    CleaningClean(cfg, g);
    FinalIsPrintable(cfg, f);
    hide Cleaned, ParseLines, PropertyLines, FindBlock, Merged, FinalProperties, StableSection, PrintableConfig, AllStay;
    var i := FindBlock(g.blocks, OwnTitle(cfg)).value;
    assert g.blocks[i := g.blocks[i]] == g.blocks;
  }

  /**
   * Configuring succeeds exactly when every required property is a scalar or an array and no configured key
   * is also among the keys to remove.
   */
  lemma ConfigureSucceedsExactly(cfg: Config, f: File)
    requires PrintableConfig(cfg) && StableSection(cfg, f) && forall name :: name in cfg.deprecated ==> Title(cfg, name) != OwnTitle(cfg)
    ensures IsConfigured(cfg, Configured(cfg, f)) <==>
              && (forall k :: k in cfg.properties && cfg.properties[k].required ==> Matchable(cfg.properties[k].value))
              && cfg.properties.Keys !! cfg.toRemove
  {
    ConfiguredReads(cfg, f);
    FinalHoldsWanted(cfg, f);
    hide FinalProperties, Configured, IsConfigured, PropertiesMatch, PrintableConfig, StableSection;
    WantedMatchExactly(cfg, FinalProperties(cfg, f));
  }

  /** After configuring, being configured is a matter of the properties our section was written from. */
  lemma ConfiguredReads(cfg: Config, f: File)
    requires PrintableConfig(cfg) && StableSection(cfg, f) && forall name :: name in cfg.deprecated ==> Title(cfg, name) != OwnTitle(cfg)
    ensures IsConfigured(cfg, Configured(cfg, f)) <==> PropertiesMatch(cfg, FinalProperties(cfg, f))
  {
    ConfiguredSection(cfg, f);
    hide ParseLines, FindBlock, Configured, FinalProperties, PrintableConfig, StableSection, PropertiesMatch, OwnBlock;
  }

  lemma WantedMatchExactly(cfg: Config, m: Properties)
    requires forall k :: k in cfg.properties ==> k in m && m[k] == cfg.properties[k].value
    requires forall k :: k in cfg.toRemove && k !in cfg.properties ==> k !in m
    ensures PropertiesMatch(cfg, m) <==>
              && (forall k :: k in cfg.properties && cfg.properties[k].required ==> Matchable(cfg.properties[k].value))
              && cfg.properties.Keys !! cfg.toRemove
  {
    hide ValuesMatch, Matchable;
    forall k | k in cfg.properties
      ensures ValuesMatch(cfg, cfg.properties[k].comparison, cfg.properties[k].value, m[k]) <==> Matchable(cfg.properties[k].value)
    {
      MatchesItselfExactly(cfg, cfg.properties[k].comparison, cfg.properties[k].value);
    }
  }

  lemma FinalHoldsWanted(cfg: Config, f: File)
    ensures
      var m := FinalProperties(cfg, f);
      && (forall k :: k in cfg.properties ==> k in m && m[k] == cfg.properties[k].value)
      && (forall k :: k in cfg.toRemove && k !in cfg.properties ==> k !in m)
      && (forall k :: k in cfg.toRemove && k in m ==> k in cfg.properties)
  {
    hide ParseLines, Cleaned, FindBlock;
  }

  /** A key the caller both sets and removes is set, and the writer reports failure. */
  lemma ConflictingKeyFails(cfg: Config, f: File, key: string)
    requires PrintableConfig(cfg) && StableSection(cfg, f) && forall name :: name in cfg.deprecated ==> Title(cfg, name) != OwnTitle(cfg)
    requires key in cfg.properties && key in cfg.toRemove
    ensures !IsConfigured(cfg, Configured(cfg, f)) && key in FinalProperties(cfg, f)
  {
    ConfigureSucceedsExactly(cfg, f);
    FinalHoldsWanted(cfg, f);
  }

  // ── What is left of the other sections ────────────────────────────────────────────────────────

  /** Another section under the body path that runs our command or serves our URL. */
  predicate Rival(cfg: Config, b: Block) {
    Trim(b.header) != OwnTitle(cfg) && UnderPath(cfg, Trim(b.header)) && RunsOurs(cfg, b)
  }

  lemma CleanedHasNoRival(cfg: Config, f: File)
    ensures forall b :: b in Cleaned(cfg, f).blocks ==> !Rival(cfg, b)
  {
    hide IsDuplicate, RunsOurs;
    KeptOnesAreNotDuplicates(cfg, WithoutDeprecated(cfg, f.blocks, cfg.deprecated));
    forall b | b in Cleaned(cfg, f).blocks ensures !Rival(cfg, b) { DuplicateExactly(cfg, b); }
  }

  /** After configuring or unconfiguring, whatever the file was, no rival is left. */
  lemma NoRivalIsLeft(cfg: Config, f: File)
    ensures forall b :: b in Configured(cfg, f).blocks + Unconfigured(cfg, f).blocks ==> !Rival(cfg, b)
  {
    CleanedHasNoRival(cfg, f);
    CleanedHasNoRival(cfg, f.(blocks := WithoutFirst(f.blocks, OwnTitle(cfg))));
    hide Cleaned, RunsOurs, PropertyLines, ParseLines, PlusLine, FindBlock, Merged, Wanted, WithoutFirst;
    var c := Cleaned(cfg, f);
    OwnTitleIsTrimmed(cfg);
    forall b | b in Configured(cfg, f).blocks ensures !Rival(cfg, b) {
      if b !in c.blocks && b.header != OwnTitle(cfg) {
        PlusLineBlocks(c, "", b);
        var last := c.blocks[|c.blocks| - 1];
        BlankLineReads(cfg, last);
        assert last in c.blocks && !Rival(cfg, last);
      }
    }
  }

  lemma BlankLineReads(cfg: Config, b: Block)
    ensures RunsOurs(cfg, Block(b.header, b.body + [""])) <==> RunsOurs(cfg, b)
  {
    BlankLineKeepsBystander(cfg, b);
    hide ParseLines, IsDuplicate, Bystander;
  }

  lemma {:induction false} AllBystanders(cfg: Config, bs: seq<Block>)
    requires forall b :: b in bs ==> Bystander(cfg, b)
    ensures BystanderBlocks(cfg, bs) == bs
  {
    hide Bystander;
    if bs != [] {
      AllBystanders(cfg, bs[1..]);
      assert bs[0] in bs;
    }
  }

  /**
   * Where our section and each deprecated one occur at most once, unconfiguring leaves exactly the bystanders,
   * each as it was.
   */
  lemma UnconfigureExactly(cfg: Config, f: File)
    requires UniqueDeprecated(cfg, f.blocks) && AtMostOne(f.blocks, OwnTitle(cfg))
    ensures Unconfigured(cfg, f) == File(f.preamble, BystanderBlocks(cfg, f.blocks))
  {
    var bs := WithoutFirst(f.blocks, OwnTitle(cfg));
    FirstWasOnly(f.blocks, OwnTitle(cfg));
    forall name | name in cfg.deprecated ensures AtMostOne(bs, Title(cfg, name)) { FirstOf(f.blocks, OwnTitle(cfg), Title(cfg, name)); }
    CleanedAllStay(cfg, f.(blocks := bs));
    DroppingOwnKeepsBystander(cfg, f.blocks);
    DroppingDeprecatedKeepsBystander(cfg, bs, cfg.deprecated);
    DroppingDuplicatesKeepsBystander(cfg, WithoutDeprecated(cfg, bs, cfg.deprecated));
    CleanedSubset(cfg, f.(blocks := bs));
    hide BystanderBlocks, Bystander, Titled, IsDuplicate, WithoutFirst, WithoutDeprecated, WithoutDuplicates, IsDeprecated;
    var left := Unconfigured(cfg, f).blocks;
    forall b | b in left ensures Bystander(cfg, b) {
      DuplicateExactly(cfg, b);
      assert Stays(cfg, b) && b in bs;
    }
    AllBystanders(cfg, left);
  }

  lemma {:induction false} FirstSubset(bs: seq<Block>, title: string)
    ensures forall b :: b in WithoutFirst(bs, title) ==> b in bs
  {
    hide Titled;
    if bs != [] { FirstSubset(bs[1..], title); }
  }

  lemma {:induction false} DeprecatedSubset(cfg: Config, bs: seq<Block>, names: seq<string>)
    ensures forall b :: b in WithoutDeprecated(cfg, bs, names) ==> b in bs
    decreases |names|
  {
    hide WithoutFirst, Title;
    if names != [] {
      FirstSubset(bs, Title(cfg, names[0]));
      DeprecatedSubset(cfg, WithoutFirst(bs, Title(cfg, names[0])), names[1..]);
    }
  }

  lemma CleanedSubset(cfg: Config, f: File)
    ensures forall b :: b in Cleaned(cfg, f).blocks ==> b in f.blocks
  {
    hide IsDuplicate;
    KeptOnesAreNotDuplicates(cfg, WithoutDeprecated(cfg, f.blocks, cfg.deprecated));
    DeprecatedSubset(cfg, f.blocks, cfg.deprecated);
  }

  // ── What is left of our own section ───────────────────────────────────────────────────────────

  /** The properties of the first section with this title. */
  function PropertiesOf(bs: seq<Block>, title: string): Properties {
    match FindBlock(bs, title)
    case Some(i) => ParseLines(bs[i].body)
    case None => map[]
  }

  lemma PropertiesOfMore(b: Block, rest: seq<Block>, title: string)
    ensures PropertiesOf([b] + rest, title) == if Titled(b, title) then ParseLines(b.body) else PropertiesOf(rest, title)
  {
    hide ParseLines, Titled;
    assert ([b] + rest)[1..] == rest;
  }

  lemma {:induction false} PropertiesWithoutFirst(bs: seq<Block>, title: string, other: string)
    requires title != other
    ensures PropertiesOf(WithoutFirst(bs, other), title) == PropertiesOf(bs, title)
    ensures FindBlock(WithoutFirst(bs, other), title).Some? <==> FindBlock(bs, title).Some?
  {
    hide ParseLines, Trim;
    assert bs != [] && Titled(bs[0], other) ==> !Titled(bs[0], title);
    hide Titled;
    if bs != [] && !Titled(bs[0], other) {
      PropertiesWithoutFirst(bs[1..], title, other);
      var rest := WithoutFirst(bs[1..], other);
      assert ([bs[0]] + rest)[1..] == rest;
    }
  }

  lemma {:induction false} PropertiesWithoutDeprecated(cfg: Config, bs: seq<Block>, names: seq<string>)
    requires forall name :: name in names ==> Title(cfg, name) != OwnTitle(cfg)
    ensures PropertiesOf(WithoutDeprecated(cfg, bs, names), OwnTitle(cfg)) == PropertiesOf(bs, OwnTitle(cfg))
    decreases |names|
  {
    hide PropertiesOf, WithoutFirst, Title, OwnTitle;
    if names != [] {
      assert names[0] in names;
      PropertiesWithoutFirst(bs, OwnTitle(cfg), Title(cfg, names[0]));
      PropertiesWithoutDeprecated(cfg, WithoutFirst(bs, Title(cfg, names[0])), names[1..]);
    }
  }

  lemma {:induction false} PropertiesWithoutDuplicates(cfg: Config, bs: seq<Block>)
    ensures PropertiesOf(WithoutDuplicates(cfg, bs), OwnTitle(cfg)) == PropertiesOf(bs, OwnTitle(cfg))
  {
    hide PropertiesOf, Titled, IsDuplicate, OwnTitle;
    if bs != [] {
      OwnIsNoDuplicate(cfg, bs[0]);
      PropertiesWithoutDuplicates(cfg, bs[1..]);
      var rest := WithoutDuplicates(cfg, bs[1..]);
      PropertiesOfMore(bs[0], rest, OwnTitle(cfg));
      PropertiesOfMore(bs[0], bs[1..], OwnTitle(cfg));
      assert [] + rest == rest && [bs[0]] + bs[1..] == bs;
    }
  }

  /**
   * Our section after configuring: every key we set with the value we give it, and of the keys it had before
   * those we neither set nor remove, with the values they had.
   */
  lemma OwnPropertiesExactly(cfg: Config, f: File, k: string)
    requires PrintableConfig(cfg) && StableSection(cfg, f) && forall name :: name in cfg.deprecated ==> Title(cfg, name) != OwnTitle(cfg)
    ensures
      var was, now := PropertiesOf(f.blocks, OwnTitle(cfg)), PropertiesOf(Configured(cfg, f).blocks, OwnTitle(cfg));
      && (k in now <==> k in cfg.properties || (k in was && k !in cfg.toRemove))
      && (k in cfg.properties ==> now[k] == cfg.properties[k].value)
      && (k in now && k !in cfg.properties ==> now[k] == was[k])
  {
    ConfiguredSection(cfg, f);
    PropertiesWithoutDeprecated(cfg, f.blocks, cfg.deprecated);
    PropertiesWithoutDuplicates(cfg, WithoutDeprecated(cfg, f.blocks, cfg.deprecated));
    hide Configured, ParseLines, WithoutDeprecated, WithoutDuplicates, OwnTitle, PrintableConfig, StableSection, Title;
  }

  /** The bystanders in front of our section. */
  function BystandersBefore(cfg: Config, bs: seq<Block>): seq<Block> {
    if bs == [] || Titled(bs[0], OwnTitle(cfg)) then []
    else (if Bystander(cfg, bs[0]) then [bs[0]] else []) + BystandersBefore(cfg, bs[1..])
  }

  lemma {:induction false} BeforeWithoutFirst(cfg: Config, bs: seq<Block>, name: string)
    requires name in cfg.deprecated && Title(cfg, name) != OwnTitle(cfg)
    ensures BystandersBefore(cfg, WithoutFirst(bs, Title(cfg, name))) == BystandersBefore(cfg, bs)
  {
    hide RunsOurs, UnderPath, Trim, Title, OwnTitle;
    if bs != [] && !Titled(bs[0], Title(cfg, name)) {
      BeforeWithoutFirst(cfg, bs[1..], name);
      assert ([bs[0]] + WithoutFirst(bs[1..], Title(cfg, name)))[1..] == WithoutFirst(bs[1..], Title(cfg, name));
    } else if bs != [] {
      assert [] + BystandersBefore(cfg, bs[1..]) == BystandersBefore(cfg, bs[1..]);
    }
  }

  lemma {:induction false} BeforeWithoutDeprecated(cfg: Config, bs: seq<Block>, names: seq<string>)
    requires forall name :: name in names ==> name in cfg.deprecated && Title(cfg, name) != OwnTitle(cfg)
    ensures BystandersBefore(cfg, WithoutDeprecated(cfg, bs, names)) == BystandersBefore(cfg, bs)
    decreases |names|
  {
    hide BystandersBefore, WithoutFirst, Title, OwnTitle;
    if names != [] {
      assert names[0] in names;
      BeforeWithoutFirst(cfg, bs, names[0]);
      BeforeWithoutDeprecated(cfg, WithoutFirst(bs, Title(cfg, names[0])), names[1..]);
    }
  }

  lemma {:induction false} BeforeWithoutDuplicates(cfg: Config, bs: seq<Block>)
    ensures BystandersBefore(cfg, WithoutDuplicates(cfg, bs)) == BystandersBefore(cfg, bs)
  {
    hide IsDuplicate, Bystander, Titled, OwnTitle;
    if bs != [] {
      DuplicateExactly(cfg, bs[0]);
      BeforeWithoutDuplicates(cfg, bs[1..]);
      var rest := WithoutDuplicates(cfg, bs[1..]);
      assert [] + rest == rest && ([bs[0]] + rest)[1..] == rest && [] + BystandersBefore(cfg, bs[1..]) == BystandersBefore(cfg, bs[1..]);
      OwnIsNoDuplicate(cfg, bs[0]);
    }
  }

  lemma OwnIsNoDuplicate(cfg: Config, b: Block)
    ensures Titled(b, OwnTitle(cfg)) ==> !IsDuplicate(cfg, b)
  {
    hide ParseLines, Trim;
  }

  lemma {:induction false} BeforeReplaced(cfg: Config, bs: seq<Block>, i: nat, b: Block)
    requires i < |bs| && Titled(bs[i], OwnTitle(cfg)) && Titled(b, OwnTitle(cfg)) && forall k :: 0 <= k < i ==> !Titled(bs[k], OwnTitle(cfg))
    ensures BystandersBefore(cfg, bs[i := b]) == BystandersBefore(cfg, bs)
  {
    hide Bystander, Titled, OwnTitle;
    if i > 0 {
      BeforeReplaced(cfg, bs[1..], i - 1, b);
      assert bs[i := b][1..] == bs[1..][i - 1 := b];
    }
  }

  /** A section of ours that was there stays where it was: the bystanders in front of it are those that were in front of it. */
  lemma ConfigureKeepsPlace(cfg: Config, f: File)
    requires FindBlock(f.blocks, OwnTitle(cfg)).Some? && forall name :: name in cfg.deprecated ==> Title(cfg, name) != OwnTitle(cfg)
    ensures BystandersBefore(cfg, Configured(cfg, f).blocks) == BystandersBefore(cfg, f.blocks)
  {
    FoundAfterCleaning(cfg, f.blocks, cfg.deprecated);
    BeforeWithoutDeprecated(cfg, f.blocks, cfg.deprecated);
    BeforeWithoutDuplicates(cfg, WithoutDeprecated(cfg, f.blocks, cfg.deprecated));
    hide WithoutDeprecated, WithoutDuplicates, BystandersBefore, OwnTitle, ParseLines, PropertyLines, Title, Merged;
    var c := Cleaned(cfg, f);
    var i := FindBlock(c.blocks, OwnTitle(cfg)).value;
    var own := OwnBlock(cfg, Merged(cfg, ParseLines(c.blocks[i].body)));
    OwnTitleIsTrimmed(cfg);
    BeforeReplaced(cfg, c.blocks, i, own);
  }

  lemma {:induction false} FoundAfterDuplicates(cfg: Config, bs: seq<Block>)
    ensures FindBlock(WithoutDuplicates(cfg, bs), OwnTitle(cfg)).Some? <==> FindBlock(bs, OwnTitle(cfg)).Some?
  {
    hide IsDuplicate, Titled, OwnTitle;
    if bs != [] {
      FoundAfterDuplicates(cfg, bs[1..]);
      OwnIsNoDuplicate(cfg, bs[0]);
      var rest := WithoutDuplicates(cfg, bs[1..]);
      assert [] + rest == rest && ([bs[0]] + rest)[1..] == rest;
    }
  }

  lemma {:induction false} FoundAfterCleaning(cfg: Config, bs: seq<Block>, names: seq<string>)
    requires forall name :: name in names ==> Title(cfg, name) != OwnTitle(cfg)
    ensures FindBlock(WithoutDuplicates(cfg, WithoutDeprecated(cfg, bs, names)), OwnTitle(cfg)).Some? <==> FindBlock(bs, OwnTitle(cfg)).Some?
    decreases |names|
  {
    hide FindBlock, WithoutFirst, WithoutDuplicates, Title, OwnTitle;
    if names == [] {
      FoundAfterDuplicates(cfg, bs);
    } else {
      assert names[0] in names;
      PropertiesWithoutFirst(bs, OwnTitle(cfg), Title(cfg, names[0]));
      FoundAfterCleaning(cfg, WithoutFirst(bs, Title(cfg, names[0])), names[1..]);
    }
  }

  /**
   * Where there was no section of ours it is put at the end, behind a blank line: one of the file's, or one added
   * because the file did not end in one.
   */
  lemma AppendedBehindABlank(cfg: Config, f: File)
    requires FindBlock(Cleaned(cfg, f).blocks, OwnTitle(cfg)).None?
    ensures
      var was, now, own := Flatten(Cleaned(cfg, f)), Flatten(Configured(cfg, f)), BlockLines(OwnBlock(cfg, Wanted(cfg)));
      && |own| <= |now| && now[|now| - |own|..] == own
      && var before := now[..|now| - |own|];
      && (before == [] || Trim(before[|before| - 1]) == "")
      && (before == was || (before == was + [""] && was != [] && Trim(was[|was| - 1]) != ""))
  {
    hide Cleaned, PropertyLines, Wanted, FlattenBlocks, OwnTitle;
    var c := Cleaned(cfg, f);
    var s, own := Separated(c), OwnBlock(cfg, Wanted(cfg));
    FlattenPlusLine(c, "");
    FlattenAppend(s.blocks, [own]);
    FlattenOne(own);
    assert Flatten(Configured(cfg, f)) == Flatten(s) + BlockLines(own);
    assert Trim("") == "";
  }
}
