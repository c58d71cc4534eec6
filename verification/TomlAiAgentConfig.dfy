/**
 * The TOML writer as it runs: an array of lines searched, spliced and joined in place. Each method is proved
 * to do on the lines what `TomlConfig` says of the sections.
 */
module TomlAiAgentConfig {
  import opened Basics
  import opened TomlStrings
  import opened TomlValues
  import opened TomlLines
  import opened TomlConfig
  import opened TomlMerge

  // ── Lines and sections ────────────────────────────────────────────────────────────────────────

  /** Where a section's header stands among the lines. */
  function Start(f: File, i: nat): nat
    requires i <= |f.blocks|
  {
    |f.preamble| + |FlattenBlocks(f.blocks[..i])|
  }

  /** The lines fall apart at a section. */
  lemma CutAt(f: File, i: nat)
    requires i < |f.blocks|
    ensures Start(f, i) < Start(f, i + 1) <= |Flatten(f)|
    ensures Flatten(f)[..Start(f, i)] == f.preamble + FlattenBlocks(f.blocks[..i])
    ensures Flatten(f)[Start(f, i)] == f.blocks[i].header
    ensures Flatten(f)[Start(f, i) + 1..Start(f, i + 1)] == f.blocks[i].body
    ensures Flatten(f)[Start(f, i + 1)..] == FlattenBlocks(f.blocks[i + 1..])
  {
    var before, b, after := f.blocks[..i], f.blocks[i], f.blocks[i + 1..];
    assert f.blocks[..i + 1] == before + [b] && f.blocks == before + [b] + after;
    FlattenAppend(before, [b]);
    FlattenAppend(before + [b], after);
    FlattenOne(b);
    assert Flatten(f) == (f.preamble + FlattenBlocks(before)) + [b.header] + b.body + FlattenBlocks(after);
  }

  /** Every line is in the preamble, a header, or in one section's body. */
  lemma {:induction false} Locate(f: File, j: nat) returns (i: int)
    requires j < |Flatten(f)|
    ensures -1 <= i < |f.blocks|
    ensures i == -1 ==> j < |f.preamble| && Flatten(f)[j] == f.preamble[j]
    ensures i >= 0 ==> Start(f, i) <= j < Start(f, i + 1)
    ensures i >= 0 && j > Start(f, i) ==> Flatten(f)[j] in f.blocks[i].body
    decreases |f.blocks|
  {
    if f.blocks == [] {
      i := -1;
    } else {
      var n := |f.blocks| - 1;
      var g := f.(blocks := f.blocks[..n]);
      CutAt(f, n);
      assert Flatten(f)[..Start(f, n)] == Flatten(g);
      if j < Start(f, n) {
        i := Locate(g, j);
        assert forall k :: 0 <= k <= n ==> g.blocks[..k] == f.blocks[..k];
      } else {
        i := n;
        assert f.blocks[..n + 1] == f.blocks;
        if j > Start(f, n) { assert Flatten(f)[Start(f, n) + 1..Start(f, n + 1)][j - Start(f, n) - 1] == Flatten(f)[j]; }
      }
    }
  }

  lemma StartsGrow(f: File, i: nat)
    requires i < |f.blocks|
    ensures Start(f, i) < Start(f, i + 1) <= |Flatten(f)| && Flatten(f)[Start(f, i)] == f.blocks[i].header
  {
    CutAt(f, i);
  }

  lemma {:induction false} StartsInOrder(f: File, i: nat, k: nat)
    requires i < k <= |f.blocks|
    ensures Start(f, i) < Start(f, k)
    decreases k
  {
    CutAt(f, k - 1);
    if i < k - 1 { StartsInOrder(f, i, k - 1); }
  }

  /** A line is a header exactly where a section starts. */
  lemma HeadersAreStarts(f: File, j: nat)
    requires WellFormed(f) && j < |Flatten(f)|
    ensures IsHeader(Flatten(f)[j]) <==> exists i: nat :: i < |f.blocks| && j == Start(f, i)
  {
    hide IsHeader;
    var i := Locate(f, j);
    if i == -1 {
      assert f.preamble[j] in f.preamble;
      forall k: nat | k < |f.blocks| ensures j != Start(f, k) { }
    } else {
      CutAt(f, i);
      assert f.blocks[i] in f.blocks && BlockOk(f.blocks[i]);
      if j != Start(f, i) {
        forall k: nat | k < |f.blocks| ensures j != Start(f, k) {
          if k <= i { if k < i { StartsInOrder(f, k, i); } } else { if i + 1 < k { StartsInOrder(f, i + 1, k); } }
        }
      }
    }
  }

  predicate IsTitle(title: string) {
    Trim(title) == title && IsHeader(title)
  }

  /** Searching the lines for a header finds the first section with that title. */
  lemma FirstLineIsFirstBlock(f: File, title: string)
    requires WellFormed(f) && IsTitle(title)
    ensures FindBlock(f.blocks, title).None? ==> forall j :: 0 <= j < |Flatten(f)| ==> Trim(Flatten(f)[j]) != title
    ensures FindBlock(f.blocks, title).Some? ==>
              var s := Start(f, FindBlock(f.blocks, title).value);
              && s < |Flatten(f)| && Trim(Flatten(f)[s]) == title
              && forall j :: 0 <= j < s ==> Trim(Flatten(f)[j]) != title
  {
    hide Trim, Flatten;
    var found := FindBlock(f.blocks, title);
    if found.Some? { CutAt(f, found.value); }
    forall j: nat | j < |Flatten(f)| && (found.Some? ==> j < Start(f, found.value)) ensures Trim(Flatten(f)[j]) != title {
      HeadersAreStarts(f, j);
      if Trim(Flatten(f)[j]) == title {
        var i: nat :| i < |f.blocks| && j == Start(f, i);
        CutAt(f, i);
        assert Titled(f.blocks[i], title);
        if found.Some? && found.value < i { StartsInOrder(f, found.value, i); }
      }
    }
  }

  lemma TitlesAreTitles(cfg: Config, name: string)
    ensures IsTitle(Title(cfg, name))
  {
    TrimOfTrimmed(Title(cfg, name));
  }

  method FindTomlSection(lines: seq<string>, title: string) returns (at: Option<nat>)
    ensures at.None? ==> forall j :: 0 <= j < |lines| ==> Trim(lines[j]) != title
    ensures at.Some? ==> at.value < |lines| && Trim(lines[at.value]) == title && forall j :: 0 <= j < at.value ==> Trim(lines[j]) != title
  {
    for i := 0 to |lines|
      invariant forall j :: 0 <= j < i ==> Trim(lines[j]) != title
    {
      if Trim(lines[i]) == title { return Some(i); }
    }
    return None;
  }

  /** The first line with a title starts the first section with it. */
  lemma FoundLineIsStart(f: File, title: string, at: Option<nat>)
    requires WellFormed(f) && IsTitle(title)
    requires at.None? ==> forall j :: 0 <= j < |Flatten(f)| ==> Trim(Flatten(f)[j]) != title
    requires at.Some? ==>
               && at.value < |Flatten(f)| && Trim(Flatten(f)[at.value]) == title
               && forall j :: 0 <= j < at.value ==> Trim(Flatten(f)[j]) != title
    ensures at == match FindBlock(f.blocks, title) case Some(i) => Some(Start(f, i)) case None => None
  {
    FirstLineIsFirstBlock(f, title);
    hide IsHeader, Trim, Flatten, FindBlock, Start, WellFormed;
  }

  method FindSectionEnd(lines: seq<string>, start: nat) returns (end: nat)
    requires start < |lines|
    ensures start < end <= |lines| && (end < |lines| ==> IsHeader(lines[end]))
    ensures forall j :: start < j < end ==> !IsHeader(lines[j])
  {
    for i := start + 1 to |lines|
      invariant forall j :: start < j < i ==> !IsHeader(lines[j])
    {
      if IsHeader(lines[i]) { return i; }
    }
    return |lines|;
  }

  /** The end found for a section is where the next one starts. */
  lemma EndIsNextStart(f: File, i: nat, end: nat)
    requires WellFormed(f) && i < |f.blocks|
    requires Start(f, i) < end <= |Flatten(f)| && (end < |Flatten(f)| ==> IsHeader(Flatten(f)[end]))
    requires forall j :: Start(f, i) < j < end ==> !IsHeader(Flatten(f)[j])
    ensures end == Start(f, i + 1)
  {
    hide IsHeader;
    CutAt(f, i);
    if end < Start(f, i + 1) {
      HeadersAreStarts(f, end);
      var k: nat :| k < |f.blocks| && end == Start(f, k);
      if k <= i { if k < i { StartsInOrder(f, k, i); } } else { if i + 1 < k { StartsInOrder(f, i + 1, k); } }
    } else if Start(f, i + 1) < end {
      HeadersAreStarts(f, Start(f, i + 1));
    }
  }

  method ParseSectionProperties(lines: seq<string>, start: nat, end: nat) returns (m: Properties)
    requires start <= end <= |lines|
    ensures m == ParseLines(lines[start..end])
  {
    hide ParseProperty;
    m := map[];
    for i := start to end
      invariant m == ParseLines(lines[start..i])
    {
      assert lines[start..i + 1][..|lines[start..i + 1]| - 1] == lines[start..i];
      var p := ParseProperty(lines[i]);
      if p.Some? { m := m[p.value.0 := p.value.1]; }
    }
  }

  /** Cutting a section's lines out is dropping the section. */
  lemma SpliceDrops(f: File, i: nat)
    requires WellFormed(f) && i < |f.blocks|
    ensures
      var g := f.(blocks := f.blocks[..i] + f.blocks[i + 1..]);
      WellFormed(g) && Start(f, i) <= Start(f, i + 1) <= |Flatten(f)|
      && Flatten(f)[..Start(f, i)] + Flatten(f)[Start(f, i + 1)..] == Flatten(g)
  {
    CutAt(f, i);
    FlattenAppend(f.blocks[..i], f.blocks[i + 1..]);
  }

  lemma {:induction false} WithoutFirstIs(bs: seq<Block>, title: string)
    ensures WithoutFirst(bs, title) ==
              match FindBlock(bs, title) case Some(i) => bs[..i] + bs[i + 1..] case None => bs
  {
    hide Titled;
    if bs != [] && !Titled(bs[0], title) {
      WithoutFirstIs(bs[1..], title);
      assert bs == [bs[0]] + bs[1..];
      var found := FindBlock(bs[1..], title);
      if found.Some? {
        var i := found.value;
        assert [bs[0]] + (bs[1..][..i] + bs[1..][i + 1..]) == bs[..i + 1] + bs[i + 2..];
      }
    }
  }

  /** Remove the first section with this title, if there is one. */
  method RemoveSection(lines: seq<string>, title: string, ghost f: File) returns (out: seq<string>, removed: bool)
    requires WellFormed(f) && lines == Flatten(f) && IsTitle(title)
    ensures
      var g := f.(blocks := WithoutFirst(f.blocks, title));
      WellFormed(g) && out == Flatten(g) && (removed <==> FindBlock(f.blocks, title).Some?) && (!removed ==> out == lines)
  {
    WithoutFirstIs(f.blocks, title);
    var at := FindTomlSection(lines, title);
    FoundLineIsStart(f, title, at);
    hide IsHeader, Trim, Flatten, FlattenBlocks, FindBlock, WithoutFirst, Start, BlockOk;
    if at.None? { return lines, false; }
    ghost var i := FindBlock(f.blocks, title).value;
    var end := FindSectionEnd(lines, at.value);
    EndIsNextStart(f, i, end);
    SpliceDrops(f, i);
    return lines[..at.value] + lines[end..], true;
  }

  // ── Duplicates ────────────────────────────────────────────────────────────────────────────────

  /** `ks` are the duplicates among the first `n` sections, in order. */
  ghost predicate DuplicatesAre(cfg: Config, bs: seq<Block>, n: nat, ks: seq<nat>)
    requires n <= |bs|
  {
    && (forall i :: 0 <= i < |ks| ==> ks[i] < n && IsDuplicate(cfg, bs[ks[i]]))
    && (forall i, j :: 0 <= i < j < |ks| ==> ks[i] < ks[j])
    && (forall k: nat :: k < n && IsDuplicate(cfg, bs[k]) ==> k in ks)
  }

  function Ranges(f: File, ks: seq<nat>): (ranges: seq<(nat, nat)>)
    requires forall i :: 0 <= i < |ks| ==> ks[i] < |f.blocks|
    ensures |ranges| == |ks|
    ensures forall i :: 0 <= i < |ks| ==> ranges[i] == (Start(f, ks[i]), Start(f, ks[i] + 1))
  {
    if ks == [] then []
    else
      var last := ks[|ks| - 1];
      Ranges(f, ks[..|ks| - 1]) + [(Start(f, last), Start(f, last + 1))]
  }

  lemma {:induction false} KeptUntil(cfg: Config, bs: seq<Block>, a: nat, m: nat)
    requires a <= m <= |bs| && forall k :: a <= k < m ==> !IsDuplicate(cfg, bs[k])
    ensures WithoutDuplicates(cfg, bs[a..]) == bs[a..m] + WithoutDuplicates(cfg, bs[m..])
    decreases m - a
  {
    hide IsDuplicate;
    if a < m {
      KeptUntil(cfg, bs, a + 1, m);
      assert bs[a..][0] == bs[a] && bs[a..][1..] == bs[a + 1..];
      assert bs[a..m] == [bs[a]] + bs[a + 1..m];
    } else {
      assert bs[a..m] == [];
    }
  }

  lemma DroppedAt(cfg: Config, bs: seq<Block>, d: nat, m: nat)
    requires d < m <= |bs| && IsDuplicate(cfg, bs[d]) && forall k :: d < k < m ==> !IsDuplicate(cfg, bs[k])
    ensures WithoutDuplicates(cfg, bs[d..]) == bs[d + 1..m] + WithoutDuplicates(cfg, bs[m..])
  {
    KeptUntil(cfg, bs, d + 1, m);
    assert bs[d..][0] == bs[d] && bs[d..][1..] == bs[d + 1..];
  }

  /** The file with the duplicates from section `m` on removed. */
  function CleanFrom(cfg: Config, f: File, m: nat): File
    requires m <= |f.blocks|
  {
    f.(blocks := f.blocks[..m] + WithoutDuplicates(cfg, f.blocks[m..]))
  }

  lemma NothingCutYet(cfg: Config, f: File)
    ensures CleanFrom(cfg, f, |f.blocks|) == f
  {
    hide IsDuplicate;
    assert f.blocks[|f.blocks|..] == [] && f.blocks[..|f.blocks|] + [] == f.blocks;
  }

  /** With the first duplicate gone too, none is left. */
  lemma AllCut(cfg: Config, f: File, ks: seq<nat>, m: nat)
    requires DuplicatesAre(cfg, f.blocks, |f.blocks|, ks) && m == (if 0 < |ks| then ks[0] else |f.blocks|) && m <= |f.blocks|
    ensures CleanFrom(cfg, f, m) == f.(blocks := WithoutDuplicates(cfg, f.blocks))
  {
    hide IsDuplicate, DuplicatesAre;
    forall k: nat | k < m ensures !IsDuplicate(cfg, f.blocks[k]) { NotBefore(cfg, f.blocks, ks, k); }
    KeptUntil(cfg, f.blocks, 0, m);
    assert f.blocks[0..] == f.blocks && f.blocks[0..m] == f.blocks[..m];
  }

  /** Cutting the range of one more duplicate, with those behind it already gone. */
  lemma CutOneMore(cfg: Config, f: File, d: nat, m: nat)
    requires d < m <= |f.blocks| && IsDuplicate(cfg, f.blocks[d]) && forall k :: d < k < m ==> !IsDuplicate(cfg, f.blocks[k])
    requires WellFormed(f) && WellFormed(CleanFrom(cfg, f, m))
    ensures
      var g := CleanFrom(cfg, f, m);
      && WellFormed(CleanFrom(cfg, f, d)) && Start(f, d) <= Start(f, d + 1) <= |Flatten(g)|
      && Flatten(g)[..Start(f, d)] + Flatten(g)[Start(f, d + 1)..] == Flatten(CleanFrom(cfg, f, d))
  {
    hide IsDuplicate, IsHeader;
    var g := CleanFrom(cfg, f, m);
    DroppedAt(cfg, f.blocks, d, m);
    SpliceDrops(g, d);
    assert g.blocks[..d] == f.blocks[..d] && g.blocks[..d + 1] == f.blocks[..d + 1];
    assert g.blocks[d + 1..] == f.blocks[d + 1..m] + WithoutDuplicates(cfg, f.blocks[m..]);
  }

  // ── The writer object ─────────────────────────────────────────────────────────────────────────

  /** A text file, absent or not, on which any call may throw. A write that throws leaves the old text or some first part of the new one. */
  class ConfigFile {
    var text: Option<string>
    /** No call on this file throws. */
    const works: bool

    constructor (text: Option<string>, works: bool)
      ensures this.text == text && this.works == works
    {
      this.text, this.works := text, works;
    }

    method Read() returns (r: Option<string>)
      requires text.Some?
      ensures (r == text || r.None?) && (works ==> r.Some?)
    {
      var throws: bool := *;
      r := if throws && !works then None else text;
    }

    method Write(t: string) returns (ok: bool)
      modifies this
      ensures ok ==> text == Some(t)
      ensures !ok ==> text == old(text) || (text.Some? && text.value <= t)
      ensures works ==> ok
    {
      ok := *;
      if ok || works {
        text := Some(t);
        return true;
      }
      var begun: bool, written: nat := *, *;
      if begun && written <= |t| { text := Some(t[..written]); }
      return false;
    }
  }

  function SplitLines(text: string): (lines: seq<string>)
    ensures lines != []
  {
    Split(ReplacePair(text, '\r', '\n', '\n'), '\n')
  }

  function SectionText(b: Block): string {
    Join(BlockLines(b), "\n") + "\n"
  }

  function ExpectedFileContent(cfg: Config): string {
    SectionText(OwnBlock(cfg, Wanted(cfg)))
  }

  /** `replace(/\n+$/, "")`. */
  function WithoutFinalBreaks(text: string): string {
    if text != "" && text[|text| - 1] == '\n' then WithoutFinalBreaks(text[..|text| - 1]) else text
  }

  /**
   * A printed section as it is spliced in: its text is split again, so that a value with line breaks spreads
   * over lines and a CRLF pair in it becomes one break.
   */
  function Spliced(b: Block): Block {
    var lines := SplitLines(WithoutFinalBreaks(SectionText(b)));
    Block(lines[0], lines[1..])
  }

  /** Where our section stands among the sections of the configured file. */
  function OwnPlace(cfg: Config, f: File): (i: nat)
    ensures i < |Configured(cfg, f).blocks|
  {
    match FindBlock(Cleaned(cfg, f).blocks, OwnTitle(cfg))
    case Some(i) => i
    case None => |Configured(cfg, f).blocks| - 1
  }

  /** The configured file with our section as it is spliced in. */
  function MergedFile(cfg: Config, f: File): File {
    var g, i := Configured(cfg, f), OwnPlace(cfg, f);
    g.(blocks := g.blocks[i := Spliced(g.blocks[i])])
  }

  /** What configuring does to the text of a file. */
  function ConfiguredText(cfg: Config, text: Option<string>): string {
    if text.None? then ExpectedFileContent(cfg)
    else Join(Flatten(MergedFile(cfg, ReadFile(SplitLines(text.value)))), "\n")
  }

  /** Whatever our values are, only the lines of our own section differ from those of the configured sections. */
  lemma MergedOnlyInOwnSection(cfg: Config, f: File)
    ensures
      var g, i := Configured(cfg, f), OwnPlace(cfg, f);
      && Start(g, i) < Start(g, i + 1) <= |Flatten(g)|
      && Flatten(g)[Start(g, i)..Start(g, i + 1)] == BlockLines(g.blocks[i])
      && Flatten(MergedFile(cfg, f)) ==
           Flatten(g)[..Start(g, i)] + SplitLines(WithoutFinalBreaks(SectionText(g.blocks[i]))) + Flatten(g)[Start(g, i + 1)..]
  {
    var g, i := Configured(cfg, f), OwnPlace(cfg, f);
    hide Configured, OwnPlace, SplitLines, SectionText, WithoutFinalBreaks, Flatten, FlattenBlocks, Start, BlockLines;
    OwnReplaced(g, i, g.blocks[i]);
    OwnReplaced(g, i, Spliced(g.blocks[i]));
    assert g.blocks[i := g.blocks[i]] == g.blocks;
    SplicedLines(g.blocks[i]);
  }

  lemma SplicedLines(b: Block)
    ensures BlockLines(Spliced(b)) == SplitLines(WithoutFinalBreaks(SectionText(b)))
  {
    hide SplitLines, SectionText, WithoutFinalBreaks;
  }

  /** The merged file where our section was found, and where it was appended. */
  lemma MergedFileIs(cfg: Config, f: File)
    ensures
      var c := Cleaned(cfg, f);
      match FindBlock(c.blocks, OwnTitle(cfg))
      case Some(i) => MergedFile(cfg, f) == c.(blocks := c.blocks[i := Spliced(OwnBlock(cfg, Merged(cfg, ParseLines(c.blocks[i].body))))])
      case None => MergedFile(cfg, f) == Separated(c).(blocks := Separated(c).blocks + [Spliced(OwnBlock(cfg, Wanted(cfg)))])
  {
    hide Cleaned, ParseLines, PropertyLines, Spliced, Separated, Merged, Wanted, FindBlock, OwnTitle;
    var c := Cleaned(cfg, f);
    match FindBlock(c.blocks, OwnTitle(cfg))
    case Some(i) =>
    case None =>
      var bs, own := Separated(c).blocks, OwnBlock(cfg, Wanted(cfg));
      assert (bs + [own])[|bs| := Spliced(own)] == bs + [Spliced(own)];
  }

  // ── What a rewrite keeps and what it leaves out ───────────────────────────────────────────────

  function WithoutBlock(h: File, i: nat): File
    requires i < |h.blocks|
  {
    h.(blocks := h.blocks[..i] + h.blocks[i + 1..])
  }

  /** The lines are those of sections of which all but the `i`-th are the bystanders of `f`, in order, and others that are no rivals. */
  predicate KeepsAround(cfg: Config, f: File, after: seq<string>, h: File, i: nat) {
    && i < |h.blocks| && after == Flatten(h)
    && (OutsideLines(cfg, WithoutBlock(h, i)) == OutsideLines(cfg, f) || OutsideLines(cfg, WithoutBlock(h, i)) == OutsideLines(cfg, f) + [""])
    && forall b :: b in WithoutBlock(h, i).blocks ==> !Rival(cfg, b)
  }

  /** Apart from one section, our own, every bystander's lines are kept in order, and no rival is left. */
  ghost predicate KeepsBystanders(cfg: Config, before: seq<string>, after: seq<string>) {
    exists h: File, i: nat :: KeepsAround(cfg, ReadFile(before), after, h, i)
  }

  /** Every bystander's lines are kept in order, and no rival is left. */
  ghost predicate LeavesBystanders(cfg: Config, before: seq<string>, after: seq<string>) {
    exists h: File :: Flatten(h) == after && OutsideLines(cfg, h) == OutsideLines(cfg, ReadFile(before)) && forall b :: b in h.blocks ==> !Rival(cfg, b)
  }

  lemma WithoutOwnBlock(cfg: Config, g: File, i: nat)
    requires i < |g.blocks| && !Bystander(cfg, g.blocks[i])
    ensures OutsideLines(cfg, WithoutBlock(g, i)) == OutsideLines(cfg, g)
  {
    hide Bystander;
    var b := g.blocks[i];
    assert g.blocks == g.blocks[..i] + ([b] + g.blocks[i + 1..]);
    BystandersAppend(cfg, g.blocks[..i], [b] + g.blocks[i + 1..]);
    BystandersAppend(cfg, g.blocks[..i], g.blocks[i + 1..]);
    assert ([b] + g.blocks[i + 1..])[1..] == g.blocks[i + 1..];
    assert BystanderBlocks(cfg, [b] + g.blocks[i + 1..]) == [] + BystanderBlocks(cfg, g.blocks[i + 1..]);
    assert [] + BystanderBlocks(cfg, g.blocks[i + 1..]) == BystanderBlocks(cfg, g.blocks[i + 1..]);
  }

  lemma OwnPlaceIsOwn(cfg: Config, f: File)
    ensures Configured(cfg, f).blocks[OwnPlace(cfg, f)].header == OwnTitle(cfg)
  {
    hide Cleaned, ParseLines, PropertyLines, Merged, Wanted, Separated, OwnTitle, FindBlock;
  }

  lemma MergeKeeps(cfg: Config, before: seq<string>)
    ensures KeepsBystanders(cfg, before, Flatten(MergedFile(cfg, ReadFile(before))))
  {
    var f := ReadFile(before);
    var g, h, i := Configured(cfg, f), MergedFile(cfg, f), OwnPlace(cfg, f);
    OwnPlaceIsOwn(cfg, f);
    OwnIsNotBystander(cfg, g.blocks[i]);
    WithoutOwnBlock(cfg, g, i);
    ConfigureKeepsOutsideLines(cfg, f);
    NoRivalIsLeft(cfg, f);
    assert WithoutBlock(h, i) == WithoutBlock(g, i);
    hide Configured, OwnPlace, Spliced, Bystander, Rival, OutsideLines, Flatten, ReadFile, Unconfigured;
    forall b | b in WithoutBlock(h, i).blocks ensures !Rival(cfg, b) { assert b in g.blocks; }
    assert KeepsAround(cfg, f, Flatten(h), h, i);
  }

  lemma UnconfiguringLeaves(cfg: Config, before: seq<string>)
    ensures LeavesBystanders(cfg, before, Flatten(Unconfigured(cfg, ReadFile(before))))
  {
    UnconfigureKeepsOutsideLines(cfg, ReadFile(before));
    NoRivalIsLeft(cfg, ReadFile(before));
    hide Configured, Unconfigured, Rival, OutsideLines, ReadFile;
    var h := Unconfigured(cfg, ReadFile(before));
    assert Flatten(h) == Flatten(h);
  }

  lemma FlattenOutside(cfg: Config, f: File)
    ensures Flatten(File(f.preamble, BystanderBlocks(cfg, f.blocks))) == OutsideLines(cfg, f)
  {
  }

  /** On whole texts. */
  ghost predicate TextKeepsBystanders(cfg: Config, before: string, after: string) {
    exists lines: seq<string> :: Join(lines, "\n") == after && KeepsBystanders(cfg, SplitLines(before), lines)
  }

  ghost predicate TextLeavesBystanders(cfg: Config, before: string, after: string) {
    exists lines: seq<string> :: Join(lines, "\n") == after && LeavesBystanders(cfg, SplitLines(before), lines)
  }

  class Writer {
    const serverName: string
    const bodyPath: string
    const deprecated: seq<string>
    const normalizeUrl: string -> string
    var properties: map<string, Property>
    var toRemove: set<string>
    var identityKeys: seq<string>

    constructor (serverName: string, bodyPath: string, deprecated: seq<string>, normalizeUrl: string -> string)
      ensures this.serverName == serverName && this.bodyPath == bodyPath && this.deprecated == deprecated
      ensures properties == map[] && toRemove == {} && identityKeys == ["command", "url"]
    {
      this.serverName, this.bodyPath, this.deprecated, this.normalizeUrl := serverName, bodyPath, deprecated, normalizeUrl;
      properties, toRemove, identityKeys := map[], {}, ["command", "url"];
    }

    function Config(): Config
      reads this
    {
      TomlConfig.Config(serverName, bodyPath, deprecated, properties, toRemove, identityKeys, normalizeUrl)
    }

    method SetProperty(key: string, value: Value, required: bool, comparison: Comparison)
      modifies this`properties
      ensures properties == old(properties)[key := Property(value, required, comparison)]
    {
      properties := properties[key := Property(value, required, comparison)];
    }

    method SetPropertyToRemove(key: string)
      modifies this`toRemove
      ensures toRemove == old(toRemove) + {key}
    {
      toRemove := toRemove + {key};
    }

    method AddIdentityKey(key: string)
      modifies this`identityKeys
      ensures identityKeys == if key in old(identityKeys) then old(identityKeys) else old(identityKeys) + [key]
    {
      if key !in identityKeys { identityKeys := identityKeys + [key]; }
    }

    /** Does a section with this header and these properties run our command or serve our URL under another name? */
    method CheckDuplicate(header: string, existing: Properties, ghost b: Block) returns (dupe: bool)
      requires b.header == header && existing == ParseLines(b.body) && IsHeader(header)
      ensures dupe <==> IsDuplicate(Config(), b)
      ensures dupe <==> Trim(header) != OwnTitle(Config()) && UnderPath(Config(), Trim(header)) && RunsOurs(Config(), b)
    {
      DuplicateExactly(Config(), b);
      hide SameIdentity, ParseLines, RunsOurs, Bystander;
      var t := Trim(header);
      if !("[" + bodyPath + "." <= t) || t == OwnTitle(Config()) { return false; }
      for i := 0 to |identityKeys|
        invariant forall j :: 0 <= j < i ==> !SameIdentity(Config(), existing, identityKeys[j])
      {
        if SameIdentity(Config(), existing, identityKeys[i]) { return true; }
      }
      return false;
    }

    /** The properties of the section whose header is line `at`, and where it ends. */
    method ReadSectionAt(lines: seq<string>, at: nat, ghost f: File, ghost i: nat) returns (existing: Properties, end: nat)
      requires WellFormed(f) && lines == Flatten(f) && i < |f.blocks| && at == Start(f, i)
      ensures existing == ParseLines(f.blocks[i].body) && end == Start(f, i + 1)
    {
      hide IsHeader, ParseLines;
      CutAt(f, i);
      end := FindSectionEnd(lines, at);
      EndIsNextStart(f, i, end);
      existing := ParseSectionProperties(lines, at + 1, end);
    }

    method FindDuplicateSectionIndices(lines: seq<string>, ghost f: File) returns (ranges: seq<(nat, nat)>, ghost ks: seq<nat>)
      requires WellFormed(f) && lines == Flatten(f)
      ensures DuplicatesAre(Config(), f.blocks, |f.blocks|, ks)
      ensures (forall j :: 0 <= j < |ks| ==> ks[j] < |f.blocks|) && ranges == Ranges(f, ks)
    {
      NoSectionsYet(Config(), f.blocks);
      hide IsHeader, IsDuplicate, ParseLines, DuplicatesAre, Start, Flatten, FlattenBlocks, Ranges, BlockOk;
      ranges, ks := [], [];
      ghost var n: nat := 0;
      for i := 0 to |lines|
        invariant n <= |f.blocks| && (n < |f.blocks| ==> i <= Start(f, n)) && (n > 0 ==> Start(f, n - 1) < i)
        invariant DuplicatesAre(Config(), f.blocks, n, ks)
        invariant (forall j :: 0 <= j < |ks| ==> ks[j] < |f.blocks|) && ranges == Ranges(f, ks)
      {
        NextHeader(f, i, n);
        if IsHeader(lines[i]) {
          StartsGrow(f, n);
          var props, end := ReadSectionAt(lines, i, f, n);
          var dupe := CheckDuplicate(lines[i], props, f.blocks[n]);
          OneMoreSection(Config(), f, n, ks, dupe);
          if dupe {
            ranges, ks := ranges + [(i, end)], ks + [n];
          }
          n := n + 1;
        }
      }
      if n < |f.blocks| { StartsGrow(f, n); }
    }

    /** Remove the sections found, from the last to the first. */
    method RemoveDuplicateSections(lines: seq<string>, ghost f: File) returns (out: seq<string>)
      requires WellFormed(f) && lines == Flatten(f)
      ensures
        var g := f.(blocks := WithoutDuplicates(Config(), f.blocks));
        WellFormed(g) && out == Flatten(g)
    {
      hide IsHeader, IsDuplicate, Start, Flatten, WellFormed, CleanFrom, WithoutDuplicates;
      var ranges, ks := FindDuplicateSectionIndices(lines, f);
      out := lines;
      var r := |ranges|;
      ghost var m := |f.blocks|;
      NothingCutYet(Config(), f);
      while r > 0
        invariant 0 <= r <= |ranges| && m == (if r < |ks| then ks[r] else |f.blocks|) && m <= |f.blocks|
        invariant WellFormed(CleanFrom(Config(), f, m)) && out == Flatten(CleanFrom(Config(), f, m))
      {
        r := r - 1;
        ghost var d := ks[r];
        assert ranges[r] == (Start(f, d), Start(f, d + 1));
        forall k: nat | d < k < m ensures !IsDuplicate(Config(), f.blocks[k]) { NotBetween(Config(), f.blocks, ks, r, k); }
        CutOneMore(Config(), f, d, m);
        out := out[..ranges[r].0] + out[ranges[r].1..];
        m := d;
      }
      AllCut(Config(), f, ks, m);
    }

    /** The whole merge, on the lines. */
    method MergeLines(lines0: seq<string>) returns (lines: seq<string>)
      ensures lines == Flatten(MergedFile(Config(), ReadFile(lines0)))
      ensures KeepsBystanders(Config(), lines0, lines)
    {
      MergeKeeps(Config(), lines0);
      hide IsHeader, IsDuplicate, ParseLines, PropertyLines, Spliced, MergedFile, Configured, KeepsBystanders;
      ghost var f := ReadFile(lines0);
      FlattenOfRead(lines0);
      lines := RemoveDeprecated(lines0, f);
      ghost var g := f.(blocks := WithoutDeprecated(Config(), f.blocks, deprecated));
      lines := RemoveDuplicateSections(lines, g);
      ghost var c := Cleaned(Config(), f);
      MergedFileIs(Config(), f);
      var at := FindOwnSection(lines, c);
      if at.Some? {
        lines := ReplaceOwn(lines, at.value, c);
      } else {
        lines := AppendOwn(lines, c);
      }
    }

    method RemoveDeprecated(lines0: seq<string>, ghost f: File) returns (lines: seq<string>)
      requires WellFormed(f) && lines0 == Flatten(f)
      ensures
        var g := f.(blocks := WithoutDeprecated(Config(), f.blocks, deprecated));
        WellFormed(g) && lines == Flatten(g)
    {
      hide IsHeader, WithoutFirst;
      lines := lines0;
      ghost var g := f;
      assert deprecated[0..] == deprecated;
      for i := 0 to |deprecated|
        invariant WellFormed(g) && lines == Flatten(g) && g.preamble == f.preamble
        invariant WithoutDeprecated(Config(), g.blocks, deprecated[i..]) == WithoutDeprecated(Config(), f.blocks, deprecated)
      {
        TitlesAreTitles(Config(), deprecated[i]);
        assert deprecated[i..][0] == deprecated[i] && deprecated[i..][1..] == deprecated[i + 1..];
        var out, _ := RemoveSection(lines, Title(Config(), deprecated[i]), g);
        lines, g := out, g.(blocks := WithoutFirst(g.blocks, Title(Config(), deprecated[i])));
      }
      assert deprecated[|deprecated|..] == [];
    }

    /** Merge into the section found and put it back in its place. */
    method ReplaceOwn(lines: seq<string>, at: nat, ghost c: File) returns (out: seq<string>)
      requires WellFormed(c) && lines == Flatten(c)
      requires FindBlock(c.blocks, OwnTitle(Config())).Some? && at == Start(c, FindBlock(c.blocks, OwnTitle(Config())).value)
      ensures
        var i := FindBlock(c.blocks, OwnTitle(Config())).value;
        out == Flatten(c.(blocks := c.blocks[i := Spliced(OwnBlock(Config(), Merged(Config(), ParseLines(c.blocks[i].body))))]))
    {
      hide IsHeader, ParseLines, PropertyLines, FlattenBlocks, FindBlock, Merged, SplitLines, SectionText, WithoutFinalBreaks;
      ghost var i := FindBlock(c.blocks, OwnTitle(Config())).value;
      var existing, end := ReadSectionAt(lines, at, c, i);
      var merged := Merged(Config(), existing);
      OwnReplaced(c, i, Spliced(OwnBlock(Config(), merged)));
      out := lines[..at] + SplitLines(WithoutFinalBreaks(SectionText(OwnBlock(Config(), merged)))) + lines[end..];
    }

    /** Append our section, behind a blank line if the file does not end in one. */
    method AppendOwn(lines0: seq<string>, ghost c: File) returns (out: seq<string>)
      requires WellFormed(c) && lines0 == Flatten(c)
      ensures out == Flatten(Separated(c).(blocks := Separated(c).blocks + [Spliced(OwnBlock(Config(), Wanted(Config())))]))
    {
      FlattenPlusLine(c, "");
      hide IsHeader, Trim, PropertyLines, PlusLine, Flatten, Wanted, SplitLines, SectionText, WithoutFinalBreaks;
      var lines := lines0;
      if lines != [] && Trim(lines[|lines| - 1]) != "" { lines := lines + [""]; }
      out := lines + SplitLines(WithoutFinalBreaks(SectionText(OwnBlock(Config(), Wanted(Config())))));
      FlattenPlusBlock(Separated(c), Spliced(OwnBlock(Config(), Wanted(Config()))));
    }

    /**
     * Create the file or merge into it, and report whether what is there now is what was asked for. Success is
     * never reported for anything but the specified text, and a call that throws is a failure.
     */
    method Configure(file: ConfigFile) returns (ok: bool)
      modifies file
      ensures file.works ==> file.text == Some(ConfiguredText(Config(), old(file.text)))
      ensures file.works && old(file.text).Some? ==> TextKeepsBystanders(Config(), old(file.text).value, file.text.value)
      ensures file.works && old(file.text).None? ==> ok
      ensures file.works && old(file.text).Some? ==> ok == TomlConfig.IsConfigured(Config(), ReadFile(SplitLines(file.text.value)))
      ensures ok ==> file.text == Some(ConfiguredText(Config(), old(file.text)))
      ensures ok && old(file.text).Some? ==> TomlConfig.IsConfigured(Config(), ReadFile(SplitLines(file.text.value)))
      ensures file.text == old(file.text) || (file.text.Some? && file.text.value <= ConfiguredText(Config(), old(file.text)))
    {
      hide ReadFile, Flatten, MergedFile, TomlConfig.IsConfigured, PropertyLines, SplitLines, Join, KeepsBystanders;
      if file.text.None? {
        ok := file.Write(ExpectedFileContent(Config()));
        return;
      }
      var before := file.Read();
      if before.None? { return false; }
      var lines := MergeLines(SplitLines(before.value));
      assert TextKeepsBystanders(Config(), before.value, Join(lines, "\n"));
      ok := file.Write(Join(lines, "\n"));
      if ok { ok := IsConfigured(file); }
    }

    /**
     * Remove our section, the deprecated ones and the duplicates; the file is written only when something went,
     * and only a write that went through is reported.
     */
    method Unconfigure(file: ConfigFile) returns (changed: bool)
      modifies file
      ensures changed ==> old(file.text).Some?
      ensures changed ==> file.text == Some(Join(Flatten(Unconfigured(Config(), ReadFile(SplitLines(old(file.text).value)))), "\n"))
      ensures changed ==> TextLeavesBystanders(Config(), old(file.text).value, file.text.value)
      ensures changed ==>
                var f := ReadFile(SplitLines(old(file.text).value));
                UniqueDeprecated(Config(), f.blocks) && AtMostOne(f.blocks, OwnTitle(Config())) ==>
                  file.text == Some(Join(OutsideLines(Config(), f), "\n"))
      ensures !changed && file.works ==> file.text == old(file.text)
      ensures !changed && file.works && old(file.text).Some? ==>
                Flatten(Unconfigured(Config(), ReadFile(SplitLines(old(file.text).value)))) == SplitLines(old(file.text).value)
    {
      if file.text.None? { return false; }
      var text := file.Read();
      if text.None? { return false; }
      var before := SplitLines(text.value);
      ghost var f := ReadFile(before);
      FlattenOfRead(before);
      TitlesAreTitles(Config(), serverName);
      hide IsHeader, IsDuplicate, WithoutFirst, WithoutDeprecated, WithoutDuplicates, ReadFile, SplitLines, Join, Flatten, LeavesBystanders, UniqueDeprecated, AtMostOne, OutsideLines;
      var lines, removed := RemoveSection(before, OwnTitle(Config()), f);
      ghost var g := f.(blocks := WithoutFirst(f.blocks, OwnTitle(Config())));
      var kept := RemoveDeprecated(lines, g);
      ghost var h := g.(blocks := WithoutDeprecated(Config(), g.blocks, deprecated));
      var final := RemoveDuplicateSections(kept, h);
      if !removed && |kept| == |lines| && |final| == |kept| {
        NothingRemoved(Config(), g, deprecated);
        DuplicatesOnlyShrink(Config(), h);
        return false;
      }
      UnconfiguringLeaves(Config(), before);
      if UniqueDeprecated(Config(), f.blocks) && AtMostOne(f.blocks, OwnTitle(Config())) {
        UnconfigureExactly(Config(), f);
        FlattenOutside(Config(), f);
      }
      assert TextLeavesBystanders(Config(), text.value, Join(final, "\n"));
      changed := file.Write(Join(final, "\n"));
    }

    method IsConfigured(file: ConfigFile) returns (ok: bool)
      ensures ok ==> file.text.Some? && TomlConfig.IsConfigured(Config(), ReadFile(SplitLines(file.text.value)))
      ensures file.works ==> ok == (file.text.Some? && TomlConfig.IsConfigured(Config(), ReadFile(SplitLines(file.text.value))))
    {
      if file.text.None? { return false; }
      var text := file.Read();
      if text.None? { return false; }
      var lines := SplitLines(text.value);
      ghost var f := ReadFile(lines);
      FlattenOfRead(lines);
      hide IsHeader, ParseLines, ReadFile, SplitLines, ValuesMatch, PropertiesMatch, Flatten, FindBlock, FlattenBlocks, Start, WellFormed;
      var at := FindOwnSection(lines, f);
      if at.None? { return false; }
      ghost var i := FindBlock(f.blocks, OwnTitle(Config())).value;
      var existing, _ := ReadSectionAt(lines, at.value, f, i);
      ok := MatchesExisting(existing);
    }

    method FindOwnSection(lines: seq<string>, ghost f: File) returns (at: Option<nat>)
      requires WellFormed(f) && lines == Flatten(f)
      ensures at.Some? <==> FindBlock(f.blocks, OwnTitle(Config())).Some?
      ensures at.Some? ==> at.value == Start(f, FindBlock(f.blocks, OwnTitle(Config())).value)
    {
      hide Flatten, FindBlock, Start, IsHeader;
      TitlesAreTitles(Config(), serverName);
      FirstLineIsFirstBlock(f, OwnTitle(Config()));
      at := FindTomlSection(lines, OwnTitle(Config()));
    }

    method MatchesExisting(existing: Properties) returns (ok: bool)
      ensures ok == PropertiesMatch(Config(), existing)
    {
      hide ValuesMatch;
      ok := && (forall k :: k in properties && properties[k].required ==>
                  k in existing && ValuesMatch(Config(), properties[k].comparison, properties[k].value, existing[k]))
            && (forall k :: k in toRemove ==> k !in existing);
    }
  }

  /** Putting our section's lines in place of a section's lines. */
  lemma OwnReplaced(c: File, i: nat, own: Block)
    requires i < |c.blocks|
    ensures
      && Start(c, i) < Start(c, i + 1) <= |Flatten(c)|
      && Flatten(c)[..Start(c, i)] + BlockLines(own) + Flatten(c)[Start(c, i + 1)..] == Flatten(c.(blocks := c.blocks[i := own]))
  {
    CutAt(c, i);
    assert c.blocks[i := own] == c.blocks[..i] + [own] + c.blocks[i + 1..];
    FlattenAppend(c.blocks[..i], [own]);
    FlattenAppend(c.blocks[..i] + [own], c.blocks[i + 1..]);
    FlattenOne(own);
  }

  lemma {:induction false} FirstOnlyShrinks(f: File, title: string)
    ensures
      var g := f.(blocks := WithoutFirst(f.blocks, title));
      |Flatten(g)| <= |Flatten(f)| && (|Flatten(g)| == |Flatten(f)| ==> g == f)
    decreases |f.blocks|
  {
    if f.blocks != [] && !Titled(f.blocks[0], title) { FirstOnlyShrinks(f.(blocks := f.blocks[1..]), title); }
  }

  /** When no line went, no section did. */
  lemma {:induction false} NothingRemoved(cfg: Config, f: File, names: seq<string>)
    ensures
      var g := f.(blocks := WithoutDeprecated(cfg, f.blocks, names));
      |Flatten(g)| <= |Flatten(f)| && (|Flatten(g)| == |Flatten(f)| ==> g == f)
    decreases |names|
  {
    hide Flatten, WithoutFirst;
    if names != [] {
      FirstOnlyShrinks(f, Title(cfg, names[0]));
      NothingRemoved(cfg, f.(blocks := WithoutFirst(f.blocks, Title(cfg, names[0]))), names[1..]);
    }
  }

  lemma {:induction false} DuplicatesOnlyShrink(cfg: Config, f: File)
    ensures
      var g := f.(blocks := WithoutDuplicates(cfg, f.blocks));
      |Flatten(g)| <= |Flatten(f)| && (|Flatten(g)| == |Flatten(f)| ==> g == f)
    decreases |f.blocks|
  {
    hide IsDuplicate;
    if f.blocks != [] {
      DuplicatesOnlyShrink(cfg, f.(blocks := f.blocks[1..]));
      FlattenAppend(if IsDuplicate(cfg, f.blocks[0]) then [] else [f.blocks[0]], WithoutDuplicates(cfg, f.blocks[1..]));
      FlattenOne(f.blocks[0]);
    }
  }

  lemma NoSectionsYet(cfg: Config, bs: seq<Block>)
    ensures DuplicatesAre(cfg, bs, 0, [])
  {
  }

  lemma OneMoreSection(cfg: Config, f: File, n: nat, ks: seq<nat>, dupe: bool)
    requires n < |f.blocks| && DuplicatesAre(cfg, f.blocks, n, ks) && (dupe <==> IsDuplicate(cfg, f.blocks[n]))
    ensures forall i :: 0 <= i < |ks| ==> ks[i] < |f.blocks|
    ensures DuplicatesAre(cfg, f.blocks, n + 1, if dupe then ks + [n] else ks)
    ensures dupe ==> Ranges(f, ks + [n]) == Ranges(f, ks) + [(Start(f, n), Start(f, n + 1))]
  {
    hide IsDuplicate, Start;
    if dupe {
      OneMoreDuplicate(cfg, f.blocks, n, ks);
      assert (ks + [n])[..|ks|] == ks;
    }
  }

  lemma OneMoreDuplicate(cfg: Config, bs: seq<Block>, n: nat, ks: seq<nat>)
    requires n < |bs| && DuplicatesAre(cfg, bs, n, ks) && IsDuplicate(cfg, bs[n])
    ensures DuplicatesAre(cfg, bs, n + 1, ks + [n])
  {
    hide IsDuplicate;
    forall k: nat | k < n + 1 && IsDuplicate(cfg, bs[k]) ensures k in ks + [n] {
      if k < n { assert k in ks; }
    }
  }

  /** The next header among the lines is where the next section starts. */
  lemma NextHeader(f: File, i: nat, n: nat)
    requires WellFormed(f) && i < |Flatten(f)| && n <= |f.blocks|
    requires (n < |f.blocks| ==> i <= Start(f, n)) && (n > 0 ==> Start(f, n - 1) < i)
    ensures IsHeader(Flatten(f)[i]) <==> n < |f.blocks| && i == Start(f, n)
  {
    hide IsHeader;
    HeadersAreStarts(f, i);
    if IsHeader(Flatten(f)[i]) {
      var k: nat :| k < |f.blocks| && i == Start(f, k);
      if k < n {
        if k < n - 1 { StartsInOrder(f, k, n - 1); }
      } else if n < k {
        StartsInOrder(f, n, k);
      }
    }
  }

  lemma NotBetween(cfg: Config, bs: seq<Block>, ks: seq<nat>, r: nat, k: nat)
    requires DuplicatesAre(cfg, bs, |bs|, ks) && r < |ks| && ks[r] < k < (if r + 1 < |ks| then ks[r + 1] else |bs|)
    ensures !IsDuplicate(cfg, bs[k])
  {
    hide IsDuplicate;
    assert IsDuplicate(cfg, bs[k]) ==> k in ks;
  }

  lemma NotBefore(cfg: Config, bs: seq<Block>, ks: seq<nat>, k: nat)
    requires DuplicatesAre(cfg, bs, |bs|, ks) && k < (if 0 < |ks| then ks[0] else |bs|)
    ensures !IsDuplicate(cfg, bs[k])
  {
    hide IsDuplicate;
    assert IsDuplicate(cfg, bs[k]) ==> k in ks;
  }
}
